/**
 * util/domain_utils.py: splitting an email address at its first "@" and a
 * domain name into (subdomain, apex), where the apex is the last two labels.
 * Python's `str.split` and `str.join` are modelled for a one-character
 * separator, with their exact behaviour on empty labels.
 */
module DomainUtils {
  import opened Common

  /** `s.split(sep)`: never empty; consecutive separators give empty labels. */
  function Split(s: string, sep: char): (parts: seq<string>)
    ensures |parts| >= 1
  {
    if s == [] then [""]
    else
      var rest := Split(s[1..], sep);
      if s[0] == sep then [""] + rest
      else [[s[0]] + rest[0]] + rest[1..]
  }

  /** `sep.join(parts)`. */
  function Join(parts: seq<string>, sep: char): string
  {
    if parts == [] then ""
    else if |parts| == 1 then parts[0]
    else parts[0] + [sep] + Join(parts[1..], sep)
  }

  /** Number of occurrences of `c` in `s` (Python's `s.count(c)`). */
  function Count(s: string, c: char): nat
  {
    if s == [] then 0 else (if s[0] == c then 1 else 0) + Count(s[1..], c)
  }

  /** No label of `parts` contains the separator. */
  predicate Labels(parts: seq<string>, sep: char)
  {
    forall i | 0 <= i < |parts| :: sep !in parts[i]
  }

  lemma {:induction false} CountAppend(a: string, b: string, c: char)
    ensures Count(a + b, c) == Count(a, c) + Count(b, c)
  {
    if a != [] {
      assert (a + b)[1..] == a[1..] + b;
      CountAppend(a[1..], b, c);
    } else {
      assert a + b == b;
    }
  }

  lemma {:induction false} CountAbsent(s: string, c: char)
    requires c !in s
    ensures Count(s, c) == 0
  {
    if s != [] {
      assert c !in s[1..];
      CountAbsent(s[1..], c);
    }
  }

  /** Joining what `Split` produced gives the input back. */
  lemma {:induction false} JoinSplit(s: string, sep: char)
    ensures Join(Split(s, sep), sep) == s
  {
    if s != [] {
      var rest := Split(s[1..], sep);
      JoinSplit(s[1..], sep);
      if s[0] == sep {
        assert ([""] + rest)[1..] == rest;
      } else if |rest| > 1 {
        var parts := [[s[0]] + rest[0]] + rest[1..];
        assert parts[1..] == rest[1..];
        assert Join(rest, sep) == rest[0] + [sep] + Join(rest[1..], sep);
      }
    }
  }

  /** Every label `Split` produces is free of the separator. */
  lemma {:induction false} SplitLabels(s: string, sep: char)
    ensures Labels(Split(s, sep), sep)
  {
    if s != [] {
      SplitLabels(s[1..], sep);
      var rest := Split(s[1..], sep);
      if s[0] != sep {
        var parts := [[s[0]] + rest[0]] + rest[1..];
        forall i | 0 <= i < |parts| ensures sep !in parts[i] {
          if i > 0 { assert parts[i] == rest[i]; }
        }
      } else {
        var parts := [""] + rest;
        forall i | 0 <= i < |parts| ensures sep !in parts[i] {
          if i > 0 { assert parts[i] == rest[i - 1]; }
        }
      }
    }
  }

  /** `s.split(sep)` has one more label than `s` has separators. */
  lemma {:induction false} SplitLength(s: string, sep: char)
    ensures |Split(s, sep)| == Count(s, sep) + 1
  {
    if s != [] {
      SplitLength(s[1..], sep);
    }
  }

  lemma {:induction false} JoinAppend(a: seq<string>, b: seq<string>, sep: char)
    requires |a| >= 1 && |b| >= 1
    ensures Join(a + b, sep) == Join(a, sep) + [sep] + Join(b, sep)
  {
    if |a| > 1 {
      assert (a + b)[1..] == a[1..] + b;
      JoinAppend(a[1..], b, sep);
    } else {
      assert (a + b)[1..] == b;
    }
  }

  /** Joining n separator-free labels puts exactly n - 1 separators in the text. */
  lemma {:induction false} CountJoin(parts: seq<string>, sep: char)
    requires |parts| >= 1 && Labels(parts, sep)
    ensures Count(Join(parts, sep), sep) == |parts| - 1
  {
    CountAbsent(parts[0], sep);
    if |parts| > 1 {
      CountJoin(parts[1..], sep);
      CountAppend(parts[0], [sep], sep);
      CountAppend(parts[0] + [sep], Join(parts[1..], sep), sep);
    }
  }

  lemma {:induction false} SplitWord(w: string, sep: char)
    requires sep !in w
    ensures Split(w, sep) == [w]
  {
    if w != [] {
      assert sep !in w[1..];
      SplitWord(w[1..], sep);
      assert [w[0]] + w[1..] == w;
    }
  }

  lemma {:induction false} SplitWordThen(w: string, t: string, sep: char)
    requires sep !in w
    ensures Split(w + [sep] + t, sep) == [w] + Split(t, sep)
  {
    if w == [] {
      assert (w + [sep] + t)[1..] == t;
    } else {
      var s := w + [sep] + t;
      assert s[0] == w[0] && s[1..] == w[1..] + [sep] + t;
      assert sep !in w[1..];
      SplitWordThen(w[1..], t, sep);
      assert [w[0]] + w[1..] == w;
    }
  }

  /** Splitting a join of separator-free labels recovers the labels. */
  lemma {:induction false} SplitJoin(parts: seq<string>, sep: char)
    requires |parts| >= 1 && Labels(parts, sep)
    ensures Split(Join(parts, sep), sep) == parts
  {
    if |parts| == 1 {
      SplitWord(parts[0], sep);
    } else {
      SplitJoin(parts[1..], sep);
      SplitWordThen(parts[0], Join(parts[1..], sep), sep);
    }
  }

  /** Number of dot-separated labels of a domain name. */
  function LabelCount(domain: string): nat
  {
    |Split(domain, '.')|
  }

  /**
   * `split_domain`: fewer than three labels give ("", input); otherwise the
   * apex is the last two labels and the subdomain everything before them,
   * and the two put back together with a dot are the input.
   */
  function SplitDomain(domainFull: string): (r: (string, string))
    ensures LabelCount(domainFull) < 3 ==> r == ("", domainFull)
    ensures LabelCount(domainFull) >= 3 ==> Dotted(r.0, r.1) == domainFull
  {
    var parts := Split(domainFull, '.');
    var n := |parts|;
    if n < 3 then ("", domainFull)
    else
      assert parts == parts[..n - 2] + parts[n - 2..];
      JoinAppend(parts[..n - 2], parts[n - 2..], '.');
      JoinSplit(domainFull, '.');
      (Join(parts[..n - 2], '.'), Join(parts[n - 2..], '.'))
  }

  /**
   * With n >= 3 labels the apex consists of exactly the last two labels (one
   * dot) and the subdomain of exactly the first n - 2 labels (n - 3 dots).
   */
  lemma SplitDomainLabels(domainFull: string)
    requires LabelCount(domainFull) >= 3
    ensures var parts := Split(domainFull, '.');
            var (sub, apex) := SplitDomain(domainFull);
            && Split(sub, '.') == parts[..|parts| - 2]
            && Split(apex, '.') == parts[|parts| - 2..]
            && Count(apex, '.') == 1
            && Count(sub, '.') == |parts| - 3
  {
    var parts := Split(domainFull, '.');
    var n := |parts|;
    SplitLabels(domainFull, '.');
    LabelsJoinSplit(parts[..n - 2], '.');
    LabelsJoinSplit(parts[n - 2..], '.');
  }

  /** A non-empty run of separator-free labels, joined, splits back into them and has one separator fewer than labels. */
  lemma LabelsJoinSplit(parts: seq<string>, sep: char)
    requires |parts| >= 1 && forall x | x in parts :: sep !in x
    ensures Split(Join(parts, sep), sep) == parts
    ensures Count(Join(parts, sep), sep) == |parts| - 1
  {
    assert Labels(parts, sep);
    SplitJoin(parts, sep);
    CountJoin(parts, sep);
  }

  /** Index of the first occurrence of `c` in `s`, if any. */
  function FirstIndex(s: string, c: char): (r: Option<nat>)
    ensures r.None? <==> c !in s
    ensures r.Some? ==> r.value < |s| && s[r.value] == c && c !in s[..r.value]
  {
    if s == [] then None
    else if s[0] == c then Some(0)
    else
      match FirstIndex(s[1..], c)
      case None => None
      case Some(i) =>
        assert s[..i + 1] == [s[0]] + s[1..][..i];
        Some(i + 1)
  }

  /** The ValueError of unpacking a one-element split into two names. */
  const UnpackTooFew := ValueError("not enough values to unpack (expected 2, got 1)")

  /**
   * `parse_email`: `local, domain = email.split("@", 1)`. Without an "@" the
   * two-way unpack of a one-element list raises ValueError; otherwise the
   * split is at the first "@", so the local part has none and the parts put
   * back together with "@" are the input.
   */
  function ParseEmail(email: string): (r: Result<(string, string)>)
    ensures r.Err? <==> '@' !in email
    ensures r.Err? ==> r.error.ValueError?
    ensures r.Ok? ==> '@' !in r.value.0 && r.value.0 + "@" + r.value.1 == email
  {
    match FirstIndex(email, '@')
    case None => Err(UnpackTooFew)
    case Some(i) =>
      assert email == email[..i] + "@" + email[i + 1..];
      Ok((email[..i], email[i + 1..]))
  }
}
