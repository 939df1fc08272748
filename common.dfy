/**
 * Value types shared by every layer of the provisioning system: optional
 * values, the exceptions the Python code raises (as the error half of a
 * `Result`), and the DNS record that the email-delivery provider hands to
 * the DNS provider.
 */
module Common {

  datatype Option<T> = None | Some(value: T)

  /** The exception kinds that the modelled code raises or lets escape. */
  datatype Error =
    | DomainAccessError(message: string)
    | SubdomainCreationError(message: string)
    | NotImplementedError(message: string)
    | UserCreationError(message: string)
    | ValueError(message: string)
    | KeyError(key: string)
    | TypeError(message: string)
    | AttributeError(message: string)
    | FileNotFoundError(message: string)
    | ValidationError(message: string)
    /** Any exception raised inside a collaborator that is not modelled (HTTP, SDK). */
    | ProviderError(message: string)

  /** A Python call that either returns a value or raises. */
  datatype Result<T> = Ok(value: T) | Err(error: Error)

  datatype RecordType = MX | TXT | CNAME

  /** `DNSRecord` of common_types.py: `priority` is optional. */
  datatype DnsRecord = DnsRecord(name: string, recordType: RecordType, value: string, priority: Option<int>)

  /**
   * A stored cell value (`SUPPORTED_TYPES` of storage/writer/storage_port.py
   * without None): floats and datetimes are carried as the text Python
   * prints for them.
   */
  datatype Value = IntVal(i: int) | StrVal(s: string) | BoolVal(b: bool) | FloatVal(floatText: string) | DateTimeVal(isoText: string)

  /** Decimal digit of `d`. */
  function DigitChar(d: nat): (c: char)
    requires d < 10
    ensures '0' <= c <= '9'
  {
    '0' + d as char
  }

  /** Decimal text of a natural number, as `str()` or an f-string prints it: no sign, no leading zero. */
  function NatText(n: nat): (s: string)
    ensures |s| >= 1 && forall i | 0 <= i < |s| :: '0' <= s[i] <= '9'
    ensures |s| > 1 ==> s[0] != '0'
  {
    if n < 10 then [DigitChar(n)] else NatText(n / 10) + [DigitChar(n % 10)]
  }

  /** The text `f"{a}.{b}"` that the code builds for a full domain name. */
  function Dotted(a: string, b: string): string
  {
    a + "." + b
  }

  /** Appending two pieces one after the other appends their concatenation. */
  lemma AppendAssoc<T>(a: seq<T>, b: seq<T>, c: seq<T>)
    ensures a + b + c == a + (b + c)
  {
  }

  /** A prefix one longer is the shorter prefix and the next element. */
  lemma TakeSnoc<T>(s: seq<T>, n: nat)
    requires 0 < n <= |s|
    ensures s[..n] == s[..n - 1] + [s[n - 1]]
  {
  }
}
