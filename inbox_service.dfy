/**
 * services/inbox_service/inbox_service.py: `InboxService`, which creates a
 * mail user for an address on a provisioned subdomain and records the
 * account, and looks accounts up and deletes their mail users again.
 *
 * As for the provisioning service, each operation is specified by a pure
 * function listing the port calls it makes on the wire, with the answers
 * they got, and its result; the class methods are proved to follow them.
 */
module Inboxes {
  import opened Common
  import opened DomainUtils
  import opened Ports

  /** `CreateInboxResult`: the saved account's id and a message. */
  datatype CreateInboxResult = CreateInboxResult(id: string, message: string)

  const InboxCreatedMessage := "inbox created"
  const UserCreationPrefix := "Failed to create user on "

  /** The ValueError `create_inbox` raises when the email provider lacks the subdomain. */
  function MissingSubdomain(name: string): (e: Error)
    ensures e.ValueError?
  {
    ValueError("Subdomain " + name + " does not exist")
  }

  /** The AttributeError `parse_email(None)` raises when no address is stored for an inbox. */
  const NoAddressError := AttributeError("'NoneType' object has no attribute 'split'")

  /**
   * `_create_user_email`: create the mail user; an empty password means
   * failure and raises UserCreationError; otherwise save "local@domain" and
   * return the id it got.
   */
  function CreateUserEmailFlow(local: string, domain: string, k: nat, answer: nat -> Answer): Outcome<string>
  {
    var created := Ask(EdsCreateUser(local, domain), k, answer);
    match AsText(created.answer)
    case Err(e) => Outcome([created], Err(e))
    case Ok(password) =>
      if password == "" then Outcome([created], Err(UserCreationError(UserCreationPrefix + domain)))
      else
        var saved := Ask(StoreAccount(local + "@" + domain), k + 1, answer);
        Outcome([created, saved], AsText(saved.answer))
  }

  /**
   * `create_inbox`: split the address and its domain, refuse with
   * ValueError unless the email provider has the subdomain, then run
   * `_create_user_email` and wrap its id.
   */
  function CreateInboxFlow(email: string, k: nat, answer: nat -> Answer): Outcome<CreateInboxResult>
  {
    match ParseEmail(email)
    case Err(e) => Outcome([], Err(e))
    case Ok((local, domain)) =>
      var (sub, apex) := SplitDomain(domain);
      var has := Ask(EdsSubdomainExists(sub, apex), k, answer);
      match AsFlag(has.answer)
      case Err(e) => Outcome([has], Err(e))
      case Ok(false) => Outcome([has], Err(MissingSubdomain(Dotted(sub, apex))))
      case Ok(true) =>
        var made := CreateUserEmailFlow(local, domain, k + 1, answer);
        Outcome([has] + made.exchanges,
                match made.result
                case Ok(id) => Ok(CreateInboxResult(id, InboxCreatedMessage))
                case Err(e) => Err(e))
  }

  /** `get_inbox`: one storage lookup, answered unchanged. */
  function GetInboxFlow(email: string, k: nat, answer: nat -> Answer): Outcome<Option<string>>
  {
    var asked := Ask(FindInboxId(email), k, answer);
    Outcome([asked], AsFound(asked.answer))
  }

  /** `delete_inbox`: look the address up, split it, and delete that mail user. */
  function DeleteInboxFlow(inboxId: string, k: nat, answer: nat -> Answer): Outcome<bool>
  {
    var lookup := Ask(FindAddress(inboxId), k, answer);
    match AsFound(lookup.answer)
    case Err(e) => Outcome([lookup], Err(e))
    case Ok(None) => Outcome([lookup], Err(NoAddressError))
    case Ok(Some(address)) =>
      match ParseEmail(address)
      case Err(e) => Outcome([lookup], Err(e))
      case Ok((local, domain)) =>
        var gone := Ask(EdsDeleteUser(local, domain), k + 1, answer);
        Outcome([lookup, gone], AsFlag(gone.answer))
  }

  /** `_create_user_email`, a module-level function over the two collaborators. */
  method CreateUserEmail(local: string, domain: string, email: EmailDeliveryPort, store: AccountStore) returns (r: Result<string>)
    requires email.wire == store.wire
    modifies email.wire
    ensures var f := CreateUserEmailFlow(local, domain, |old(email.wire.log)|, email.wire.answer);
            email.wire.log == old(email.wire.log) + f.exchanges && r == f.result
  {
    var password := email.CreateUser(local, domain);
    if password.Err? {
      return Err(password.error);
    }
    if password.value == "" {
      return Err(UserCreationError(UserCreationPrefix + domain));
    }
    r := store.SaveAccount(local + "@" + domain);
  }

  class InboxService {
    const wire: Wire
    const emailDelivery: EmailDeliveryPort
    const accounts: AccountStore

    /** Both collaborators talk over the one wire. */
    ghost predicate Valid()
    {
      emailDelivery.wire == wire && accounts.wire == wire
    }

    constructor (emailDelivery: EmailDeliveryPort, accounts: AccountStore)
      requires emailDelivery.wire == accounts.wire
      ensures Valid() && this.emailDelivery == emailDelivery && this.accounts == accounts
    {
      wire := emailDelivery.wire;
      this.emailDelivery := emailDelivery;
      this.accounts := accounts;
    }

    method CreateInbox(email: string) returns (r: Result<CreateInboxResult>)
      requires Valid()
      modifies wire
      ensures var f := CreateInboxFlow(email, |old(wire.log)|, wire.answer);
              wire.log == old(wire.log) + f.exchanges && r == f.result
    {
      ghost var start := wire.log;
      var parsed := ParseEmail(email);
      if parsed.Err? {
        return Err(parsed.error);
      }
      var (local, domain) := parsed.value;
      var (sub, apex) := SplitDomain(domain);
      var has := emailDelivery.SubdomainExists(sub, apex);
      if has.Err? {
        return Err(has.error);
      }
      if !has.value {
        return Err(MissingSubdomain(Dotted(sub, apex)));
      }
      var inboxId := CreateUserEmail(local, domain, emailDelivery, accounts);
      AppendAssoc(start, [Exchange(EdsSubdomainExists(sub, apex), wire.answer(|start|))],
                CreateUserEmailFlow(local, domain, |start| + 1, wire.answer).exchanges);
      if inboxId.Err? {
        return Err(inboxId.error);
      }
      return Ok(CreateInboxResult(inboxId.value, InboxCreatedMessage));
    }

    method GetInbox(email: string) returns (r: Result<Option<string>>)
      requires Valid()
      modifies wire
      ensures var f := GetInboxFlow(email, |old(wire.log)|, wire.answer);
              wire.log == old(wire.log) + f.exchanges && r == f.result
    {
      r := accounts.GetInboxId(email);
    }

    method DeleteInbox(inboxId: string) returns (r: Result<bool>)
      requires Valid()
      modifies wire
      ensures var f := DeleteInboxFlow(inboxId, |old(wire.log)|, wire.answer);
              wire.log == old(wire.log) + f.exchanges && r == f.result
    {
      var address := accounts.GetEmailAddress(inboxId);
      if address.Err? {
        return Err(address.error);
      }
      if address.value.None? {
        return Err(NoAddressError);
      }
      var parsed := ParseEmail(address.value.value);
      if parsed.Err? {
        return Err(parsed.error);
      }
      var (local, domain) := parsed.value;
      r := emailDelivery.DeleteUser(local, domain);
    }
  }

  /** An address without "@" is refused by the split with ValueError before any call. */
  lemma CreateInboxUnparsable(email: string, k: nat, answer: nat -> Answer)
    requires '@' !in email
    ensures var f := CreateInboxFlow(email, k, answer);
            f.exchanges == [] && f.result.Err? && f.result.error.ValueError?
  {
  }

  /**
   * For a well-formed address the first and possibly only call asks the
   * email provider about the subdomain the address's domain splits into;
   * if it does not have it, ValueError is raised and nothing is created or
   * saved.
   */
  lemma CreateInboxChecksFirst(email: string, k: nat, answer: nat -> Answer)
    requires '@' in email
    ensures var f := CreateInboxFlow(email, k, answer);
            var (sub, apex) := SplitDomain(ParseEmail(email).value.1);
            && |f.exchanges| >= 1 && Calls(f.exchanges)[0] == EdsSubdomainExists(sub, apex)
            && (AsFlag(answer(k)) == Ok(false) ==>
                  Calls(f.exchanges) == [EdsSubdomainExists(sub, apex)]
                  && f.result == Err(MissingSubdomain(Dotted(sub, apex))))
  {
  }

  /** An empty password raises UserCreationError and no account is saved. */
  lemma CreateInboxEmptyPassword(email: string, k: nat, answer: nat -> Answer)
    requires '@' in email && AsFlag(answer(k)) == Ok(true) && AsText(answer(k + 1)) == Ok("")
    ensures var f := CreateInboxFlow(email, k, answer);
            var (local, domain) := ParseEmail(email).value;
            var (sub, apex) := SplitDomain(domain);
            && Calls(f.exchanges) == [EdsSubdomainExists(sub, apex), EdsCreateUser(local, domain)]
            && f.result == Err(UserCreationError(UserCreationPrefix + domain))
  {
  }

  /**
   * Over all answers: an account is saved only after the subdomain check
   * and a non-empty password, it is saved once and under exactly the address
   * given, and a successful result carries the id that save returned with
   * the message "inbox created".
   */
  lemma CreateInboxSaves(email: string, k: nat, answer: nat -> Answer)
    ensures var f := CreateInboxFlow(email, k, answer);
            (StoreAccount(email) in Calls(f.exchanges) || f.result.Ok?) ==>
              var (local, domain) := ParseEmail(email).value;
              var (sub, apex) := SplitDomain(domain);
              && AsFlag(answer(k)) == Ok(true) && AsText(answer(k + 1)).Ok? && AsText(answer(k + 1)).value != ""
              && Calls(f.exchanges) == [EdsSubdomainExists(sub, apex), EdsCreateUser(local, domain), StoreAccount(email)]
              && (f.result.Ok? <==> answer(k + 2).raised.None?)
              && (f.result.Ok? ==> f.result.value == CreateInboxResult(answer(k + 2).text, InboxCreatedMessage))
  {
    var f := CreateInboxFlow(email, k, answer);
    if StoreAccount(email) in Calls(f.exchanges) || f.result.Ok? {
      var (local, domain) := ParseEmail(email).value;
      var (sub, apex) := SplitDomain(domain);
      assert local + "@" + domain == email;
    }
  }

  /** `get_inbox` makes one lookup and returns what storage answered. */
  lemma GetInboxPassesThrough(email: string, k: nat, answer: nat -> Answer)
    ensures var f := GetInboxFlow(email, k, answer);
            && Calls(f.exchanges) == [FindInboxId(email)]
            && (f.result.Ok? <==> answer(k).raised.None?)
            && (f.result.Ok? ==> f.result.value == answer(k).found)
  {
  }

  /**
   * `delete_inbox` deletes the mail user of the address stored for the
   * inbox and returns the provider's answer unchanged; when no address is
   * stored it raises AttributeError without deleting anything.
   */
  lemma DeleteInboxDelegates(inboxId: string, k: nat, answer: nat -> Answer)
    requires answer(k).raised.None?
    ensures var f := DeleteInboxFlow(inboxId, k, answer);
            && (answer(k).found.None? ==> Calls(f.exchanges) == [FindAddress(inboxId)] && f.result == Err(NoAddressError))
            && (answer(k).found.Some? && '@' in answer(k).found.value ==>
                  var (local, domain) := ParseEmail(answer(k).found.value).value;
                  && local + "@" + domain == answer(k).found.value
                  && Calls(f.exchanges) == [FindAddress(inboxId), EdsDeleteUser(local, domain)]
                  && f.result == AsFlag(answer(k + 1)))
  {
  }
}
