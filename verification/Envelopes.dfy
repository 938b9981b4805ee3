/** The command envelope that travels through the queues, and the two pure decisions taken on it:
    which key identifies the command, and whether a failed run is parked or dead-lettered. */
module Envelopes {
  import opened Wrappers

  type Key = string

  const MAX_ATTEMPTS: nat := 3
  const DOWNLOAD_MAX_ATTEMPTS: nat := 1

  // `attempts` and `replayed` default to 0 and false when the JSON object lacks them.
  datatype Envelope = Envelope(jid: string, messageId: Option<string>, attempts: nat, replayed: bool)

  // The only difference the router sees between external errors.
  datatype ExternalError = ServiceError | DownloadError

  datatype Route = Retry(retry: Envelope) | Bury(dead: Envelope)

  function KeyOf(e: Envelope): Option<Key> {
    match e.messageId
    case Some(id) => if id == "" then None else Some(e.jid + ":" + id)
    case None => None
  }

  predicate HasId(e: Envelope) {
    e.messageId.Some? && e.messageId.value != ""
  }

  predicate SameCommand(a: Envelope, b: Envelope) {
    a.jid == b.jid && a.messageId == b.messageId
  }

  // `b`'s chat is `a`'s followed by a colon and the start of `a`'s id.
  ghost predicate Straddles(a: Envelope, b: Envelope)
    requires HasId(a) && HasId(b)
  {
    exists rest :: b.jid == a.jid + ":" + rest && a.messageId.value == rest + ":" + b.messageId.value
  }

  lemma KeyParts(a: Envelope, b: Envelope)
    requires HasId(a) && HasId(b) && KeyOf(a) == KeyOf(b) && |a.jid| < |b.jid|
    ensures Straddles(a, b)
  {
    var key, x, y := KeyOf(a).value, |a.jid|, |b.jid|;
    assert key == a.jid + (":" + a.messageId.value) == b.jid + (":" + b.messageId.value);
    var rest := b.jid[x + 1..];
    assert key[..x] == a.jid == b.jid[..x] && key[x] == ':' == b.jid[x];
    assert b.jid == a.jid + ":" + rest;
    assert key[x + 1..] == a.messageId.value;
    assert key[x + 1..] == key[x + 1..y] + key[y..] && key[x + 1..y] == rest && key[y..] == ":" + b.messageId.value;
    assert a.messageId.value == rest + ":" + b.messageId.value;
  }

  lemma StraddlersShare(a: Envelope, b: Envelope)
    requires HasId(a) && HasId(b) && Straddles(a, b)
    ensures KeyOf(a) == KeyOf(b)
  {
    var rest :| b.jid == a.jid + ":" + rest && a.messageId.value == rest + ":" + b.messageId.value;
    assert a.jid + ":" + (rest + ":" + b.messageId.value) == (a.jid + ":" + rest) + ":" + b.messageId.value;
  }

  lemma SameLengthParts(a: Envelope, b: Envelope)
    requires HasId(a) && HasId(b) && KeyOf(a) == KeyOf(b) && |a.jid| == |b.jid|
    ensures SameCommand(a, b)
  {
    var key, n := KeyOf(a).value, |a.jid|;
    assert key[..n] == a.jid == b.jid;
    assert key[n + 1..] == a.messageId.value == b.messageId.value;
  }

  // Two commands share a key only if they are one, or if the text of one's chat goes on into the
  // other's id across a colon.
  lemma SharedKeyExactly(a: Envelope, b: Envelope)
    ensures KeyOf(a).Some? <==> HasId(a)
    ensures HasId(a) && HasId(b) ==>
      (KeyOf(a) == KeyOf(b) <==> SameCommand(a, b) || Straddles(a, b) || Straddles(b, a))
  {
    if HasId(a) && HasId(b) {
      if KeyOf(a) == KeyOf(b) {
        if |a.jid| == |b.jid| {
          SameLengthParts(a, b);
        } else if |a.jid| < |b.jid| {
          KeyParts(a, b);
        } else {
          KeyParts(b, a);
        }
      } else {
        if Straddles(a, b) {
          StraddlersShare(a, b);
        } else if Straddles(b, a) {
          StraddlersShare(b, a);
        }
      }
    }
  }

  lemma StraddlersDiffer(a: Envelope, b: Envelope)
    requires HasId(a) && HasId(b) && Straddles(a, b)
    ensures |a.jid| < |b.jid| && |a.messageId.value| > |b.messageId.value| && ':' in b.jid
  {
    var rest :| b.jid == a.jid + ":" + rest && a.messageId.value == rest + ":" + b.messageId.value;
    assert b.jid[|a.jid|] == ':';
  }

  // So in one chat, among messages of one id, and wherever chats have no colon in their names, a key
  // belongs to one command.
  lemma KeyIsOwn(a: Envelope, b: Envelope)
    requires a.jid == b.jid || a.messageId == b.messageId || (':' !in a.jid && ':' !in b.jid)
    ensures KeyOf(a).Some? && KeyOf(a) == KeyOf(b) ==> SameCommand(a, b)
  {
    SharedKeyExactly(a, b);
    if HasId(a) && HasId(b) {
      if Straddles(a, b) {
        StraddlersDiffer(a, b);
      }
      if Straddles(b, a) {
        StraddlersDiffer(b, a);
      }
    }
  }

  // A replay neither checks nor takes the claim.
  function ClaimKey(e: Envelope): Option<Key> {
    if e.replayed then None else KeyOf(e)
  }

  function MaxAttempts(error: ExternalError): nat {
    if error.DownloadError? then DOWNLOAD_MAX_ATTEMPTS else MAX_ATTEMPTS
  }

  // The dead-letter branch publishes the envelope with the attempts it arrived with.
  function RouteOf(e: Envelope, error: ExternalError): Route {
    if e.attempts + 1 < MaxAttempts(error)
    then Retry(e.(attempts := e.attempts + 1))
    else Bury(e)
  }

  // A failed download is dead-lettered at once; any other failure is parked twice, then dead-lettered.
  lemma FailuresRoute(e: Envelope, error: ExternalError)
    ensures RouteOf(e, error) ==
      if error == ServiceError && e.attempts < 2
      then Retry(Envelope(e.jid, e.messageId, e.attempts + 1, e.replayed))
      else Bury(e)
  {
  }

  function Replayed(e: Envelope): Envelope {
    e.(attempts := 0, replayed := true)
  }
}
