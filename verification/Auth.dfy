/** Request signing: the message that is signed, and what a server learns from a valid signature. */
module Auth {
  import opened Crypto
  import opened Text
  import opened SafetyNumber

  function BuildSignedMessage(verb: string, path: string, timestamp: nat, body: seq<byte>, sha256: Hash): string {
    verb + ":" + path + ":" + Decimal(timestamp) + ":" + HexEncode(sha256(body))
  }

  /** A signature by identity `signer`. */
  datatype Signature = Signature(signer: nat, message: string)

  datatype AuthHeader = AuthHeader(accountId: string, timestamp: nat, signature: Signature)

  function SignRequest(identity: nat, accountId: string, verb: string, path: string, body: seq<byte>, timestamp: nat,
                       sha256: Hash)
    : AuthHeader
  {
    AuthHeader(accountId, timestamp, Signature(identity, BuildSignedMessage(verb, path, timestamp, body, sha256)))
  }

  const MAX_TIMESTAMP_DRIFT_SECS: nat := 300

  /** A request as the server receives it, its target already taken apart. */
  datatype Request = Request(verb: string, path: string, query: string, body: seq<byte>)

  function UpperChar(c: char): char {
    if 'a' <= c <= 'z' then c - 'a' + 'A' else c
  }

  /** Methods are ASCII. */
  function Upper(s: string): string {
    seq(|s|, i requires 0 <= i < |s| => UpperChar(s[i]))
  }

  /** The server rebuilds the message from the request and the header, with the method in upper case and without
      the query. */
  predicate ServerAccepts(h: AuthHeader, identity: nat, r: Request, now: nat, sha256: Hash) {
    && (if now < h.timestamp then h.timestamp - now else now - h.timestamp) <= MAX_TIMESTAMP_DRIFT_SECS
    && h.signature == Signature(identity, BuildSignedMessage(Upper(r.verb), r.path, h.timestamp, r.body, sha256))
  }

  lemma SplitFirst(a: string, b: string, c: string, d: string)
    requires ':' !in a && ':' !in c && a + ":" + b == c + ":" + d
    ensures a == c && b == d
  {
    var s, t := a + ":" + b, c + ":" + d;
    assert s[|a|] == ':' && t[|c|] == ':';
    assert a == s[..|a|] && c == t[..|c|] && b == s[|a| + 1..] && d == t[|c| + 1..];
  }

  lemma SplitLast(a: string, b: string, c: string, d: string)
    requires ':' !in b && ':' !in d && a + ":" + b == c + ":" + d
    ensures a == c && b == d
  {
    var s, t := a + ":" + b, c + ":" + d;
    assert s[|a|] == ':' && t[|c|] == ':';
    assert a == s[..|a|] && c == t[..|c|] && b == s[|a| + 1..] && d == t[|c| + 1..];
  }

  /** With colon-free methods the message determines everything it was built from, even if paths have
      colons. */
  lemma MessageExact(verb: string, path: string, timestamp: nat, body: seq<byte>,
                     verb': string, path': string, timestamp': nat, body': seq<byte>, sha256: Hash)
    requires ':' !in verb && ':' !in verb'
    ensures BuildSignedMessage(verb, path, timestamp, body, sha256)
         == BuildSignedMessage(verb', path', timestamp', body', sha256)
       <==> verb == verb' && path == path' && timestamp == timestamp' && sha256(body) == sha256(body')
  {
    var hash, hash' := HexEncode(sha256(body)), HexEncode(sha256(body'));
    var time, time' := Decimal(timestamp), Decimal(timestamp');
    if BuildSignedMessage(verb, path, timestamp, body, sha256)
    == BuildSignedMessage(verb', path', timestamp', body', sha256)
    {
      HexRoundTrip(sha256(body));
      HexRoundTrip(sha256(body'));
      DecimalShape(timestamp);
      DecimalShape(timestamp');
      var front, front' := verb + ":" + path + ":" + time, verb' + ":" + path' + ":" + time';
      assert front + ":" + hash == BuildSignedMessage(verb, path, timestamp, body, sha256);
      assert front' + ":" + hash' == BuildSignedMessage(verb', path', timestamp', body', sha256);
      assert front == (front + ":" + hash)[..|front|] && front' == (front' + ":" + hash')[..|front'|];
      assert hash == (front + ":" + hash)[|front| + 1..] && hash' == (front' + ":" + hash')[|front'| + 1..];
      HexInjective(sha256(body), sha256(body'));
      SplitLast(verb + ":" + path, time, verb' + ":" + path', time');
      DecimalInjective(timestamp, timestamp');
      SplitFirst(verb, path, verb', path');
    }
  }

  /** A method with a colon in it is read in another way as well, with a colon-free method. */
  lemma ColonAmbiguous(verb: string, path: string, timestamp: nat, body: seq<byte>, sha256: Hash)
    returns (verb': string, path': string)
    requires ':' in verb
    ensures ':' !in verb' && verb' != verb
    ensures BuildSignedMessage(verb', path', timestamp, body, sha256)
         == BuildSignedMessage(verb, path, timestamp, body, sha256)
  {
    var k := FirstColon(verb);
    verb', path' := verb[..k], verb[k + 1..] + ":" + path;
    assert verb == verb' + ":" + verb[k + 1..];
    assert verb' + ":" + path' == verb + ":" + path;
  }

  function FirstColon(s: string): (k: nat)
    requires ':' in s
    ensures k < |s| && s[k] == ':' && ':' !in s[..k]
  {
    if s[0] == ':' then 0
    else
      var k := FirstColon(s[1..]);
      assert s[..k + 1] == [s[0]] + s[1..][..k];
      k + 1
  }

  /** What is in upper case already: what has no letter from a to z, each of which has its capital. */
  lemma UpperExact(s: string)
    ensures Upper(s) == s <==> forall c :: c in s ==> !('a' <= c <= 'z')
    ensures Upper("abcdefghijklmnopqrstuvwxyz") == "ABCDEFGHIJKLMNOPQRSTUVWXYZ"
  {
    forall i | 0 <= i < |s|
      ensures Upper(s)[i] == s[i] <==> !('a' <= s[i] <= 'z')
    {
    }
    if Upper(s) == s {
      forall c | c in s
        ensures !('a' <= c <= 'z')
      {
        var i :| 0 <= i < |s| && s[i] == c;
        assert Upper(s)[i] == s[i];
      }
    } else {
      var i :| 0 <= i < |s| && Upper(s)[i] != s[i];
      assert s[i] in s;
    }
  }

  lemma UpperColon(s: string)
    ensures ':' in Upper(s) <==> ':' in s
  {
    forall k | 0 <= k < |s|
      ensures Upper(s)[k] == ':' <==> s[k] == ':'
    {
    }
    if ':' in s {
      var k :| 0 <= k < |s| && s[k] == ':';
      assert Upper(s)[k] == ':';
    }
  }

  /** The server accepts a signature, under whatever timestamp and with whatever request it is sent, exactly for
      the signer, path, body and time it was made for, when that time is near, and for every spelling of the method
      whose upper case was signed.  The query is not looked at. */
  lemma AcceptsExactly(identity: nat, accountId: string, verb: string, path: string, timestamp: nat, body: seq<byte>,
                       h: AuthHeader, identity': nat, r: Request, now: nat, sha256: Hash)
    requires ':' !in verb && ':' !in r.verb
    requires h.signature == SignRequest(identity, accountId, verb, path, body, timestamp, sha256).signature
    ensures ServerAccepts(h, identity', r, now, sha256)
       <==> && identity == identity' && verb == Upper(r.verb) && path == r.path
            && timestamp == h.timestamp && sha256(body) == sha256(r.body)
            && now - MAX_TIMESTAMP_DRIFT_SECS <= timestamp <= now + MAX_TIMESTAMP_DRIFT_SECS
  {
    UpperColon(r.verb);
    MessageExact(verb, path, timestamp, body, Upper(r.verb), r.path, h.timestamp, r.body, sha256);
  }

  /** The header that the client makes names its account and the time it signed, so the server accepts the very
      request it was made for exactly when the method is the upper case of the one sent and the time is near. */
  lemma OwnRequestAccepted(identity: nat, accountId: string, verb: string, r: Request, timestamp: nat, now: nat,
                           sha256: Hash)
    requires ':' !in verb && ':' !in r.verb
    ensures var h := SignRequest(identity, accountId, verb, r.path, r.body, timestamp, sha256);
            && h.accountId == accountId && h.timestamp == timestamp
            && (ServerAccepts(h, identity, r, now, sha256) <==>
                  verb == Upper(r.verb) && now - 300 <= timestamp <= now + 300)
  {
    var h := SignRequest(identity, accountId, verb, r.path, r.body, timestamp, sha256);
    AcceptsExactly(identity, accountId, verb, r.path, timestamp, r.body, h, identity, r, now, sha256);
  }

  /** So a request signed with a method not in upper case is never accepted, not for itself either. */
  lemma LowerCaseRefused(identity: nat, accountId: string, verb: string, path: string, timestamp: nat, body: seq<byte>,
                         h: AuthHeader, identity': nat, r: Request, now: nat, sha256: Hash)
    requires ':' !in verb && ':' !in r.verb && Upper(verb) != verb
    requires h.signature == SignRequest(identity, accountId, verb, path, body, timestamp, sha256).signature
    ensures !ServerAccepts(h, identity', r, now, sha256)
  {
    AcceptsExactly(identity, accountId, verb, path, timestamp, body, h, identity', r, now, sha256);
    assert Upper(Upper(r.verb)) == Upper(r.verb);
  }
}
