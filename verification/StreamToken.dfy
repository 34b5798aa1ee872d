/** Stream tokens (app/core/stream_token.py): signed, good for sixty seconds, remembered for a
    hundred and twenty. A signature is its secret and what it signs; it cannot be forged. */
module StreamToken {
  import opened NonceStore

  const LIFE: int := 60
  const MEMORY: real := 120.0

  datatype Payload = Payload(tenant: string, userId: string, userName: string, keyId: string, exp: int, nonce: string)

  datatype Signature = Signature(secret: string, payload: Payload)

  datatype Token = Garbled | Signed(payload: Payload, signature: Signature)

  datatype Reason = Malformed | UnknownKey | BadSignature | Expired | Replayed

  datatype Verdict = Rejected(reason: Reason) | Identity(tenant: string, userId: string, userName: string)

  function Create(tenant: string, userId: string, userName: string, keyId: string, secret: string, now: real,
                  nonce: string): Token {
    var payload := Payload(tenant, userId, userName, keyId, now.Floor + LIFE, nonce);
    Signed(payload, Signature(secret, payload))
  }

  /** Signature, key and expiry, without using the nonce up. */
  function Verify(t: Token, keys: map<string, string>, now: real): Verdict {
    match t
    case Garbled => Rejected(Malformed)
    case Signed(p, signature) =>
      if p.keyId !in keys || keys[p.keyId] == "" then Rejected(UnknownKey)
      else if signature != Signature(keys[p.keyId], p) then Rejected(BadSignature)
      else if now.Floor > p.exp then Rejected(Expired)
      else Identity(p.tenant, p.userId, p.userName)
  }

  function KeyOf(p: Payload): Key {
    ("stream:" + p.keyId, p.nonce)
  }

  /** One use of the shared store: a token to validate, or any other registration. */
  datatype Visit =
    | Validate(token: Token, keys: map<string, string>, now: real, before: set<Key>, after: set<Key>)
    | Other(request: Request)

  /** What the visit registers, if it comes that far. */
  function RequestOf(v: Visit): seq<Request> {
    match v
    case Other(r) => [r]
    case Validate(t, keys, now, before, after) =>
      if Verify(t, keys, now).Rejected? then []
      else [Request(KeyOf(t.payload), MEMORY, now, before, after)]
  }

  function Requests(vs: seq<Visit>): seq<Request> {
    if vs == [] then [] else Requests(vs[..|vs| - 1]) + RequestOf(vs[|vs| - 1])
  }

  /** `validate_stream_token`, on the store the visits before left. */
  function Answer(vs: seq<Visit>, v: Visit): Verdict
    requires v.Validate?
  {
    var verdict := Verify(v.token, v.keys, v.now);
    if verdict.Rejected? then verdict
    else if Registered(Run(Requests(vs)).0, Request(KeyOf(v.token.payload), MEMORY, v.now, v.before, v.after)).1 then verdict
    else Rejected(Replayed)
  }

  lemma {:induction false} RequestsGrow(vs: seq<Visit>, i: nat)
    requires i < |vs|
    ensures Requests(vs[..i + 1]) == Requests(vs[..i]) + RequestOf(vs[i])
    ensures Requests(vs[..i + 1]) <= Requests(vs)
  {
    assert vs[..i + 1][..i] == vs[..i];
    if i + 1 < |vs| {
      RequestsGrow(vs[..|vs| - 1], i);
      assert vs[..|vs| - 1][..i + 1] == vs[..i + 1] && vs[..|vs| - 1][..i] == vs[..i];
    } else {
      assert vs[..i + 1] == vs;
    }
  }

  /** Signed for its payload with the secret of a known key, and not expired. */
  predicate Genuine(t: Token, keys: map<string, string>, now: real) {
    && t.Signed?
    && t.payload.keyId in keys && keys[t.payload.keyId] != ""
    && t.signature == Signature(keys[t.payload.keyId], t.payload)
    && now.Floor <= t.payload.exp
  }

  /** The nonce was accepted in that scope, by whomever, and its time is not over. */
  predicate Taken(vs: seq<Visit>, scope: string, nonce: string, now: real) {
    exists k :: 0 <= k < |Requests(vs)| && k < |Run(Requests(vs)).1| && Run(Requests(vs)).1[k]
                && Requests(vs)[k].key == (scope, nonce) && Requests(vs)[k].now + Requests(vs)[k].ttl > now
  }

  /** Who gets in, whatever happened before: a token is accepted exactly when it is genuine and its
      nonce is not taken, and then as the one it was made out to. */
  lemma AcceptedIff(vs: seq<Visit>, v: Visit)
    requires v.Validate? && Clocked(Requests(vs)) && v.now >= 0.0 && LastTime(Requests(vs)) <= v.now
    ensures match Answer(vs, v)
      case Identity(tenant, userId, userName) =>
        && Genuine(v.token, v.keys, v.now) && !Taken(vs, "stream:" + v.token.payload.keyId, v.token.payload.nonce, v.now)
        && tenant == v.token.payload.tenant && userId == v.token.payload.userId && userName == v.token.payload.userName
      case Rejected(reason) =>
        if reason.Replayed? then
          && Genuine(v.token, v.keys, v.now) && Taken(vs, "stream:" + v.token.payload.keyId, v.token.payload.nonce, v.now)
        else !Genuine(v.token, v.keys, v.now)
  {
    if Genuine(v.token, v.keys, v.now) {
      var rs, p := Requests(vs), v.token.payload;
      var r := Request(KeyOf(p), MEMORY, v.now, v.before, v.after);
      AnswersPrefix(rs, |rs|);
      AnswerByHistory(rs, r);
      AnswerParts(vs, v, r);
      var answers := Run(rs).1;
      if Registered(Run(rs).0, r).1 {
        forall k | 0 <= k < |rs| && answers[k] && rs[k].key == r.key ensures Expiry(rs[k]) <= v.now {
          assert AcceptedFor(rs, answers, k, r.key);
        }
      } else {
        var k :| AcceptedFor(rs, answers, k, r.key) && !(Expiry(rs[k]) <= v.now);
        assert Taken(vs, "stream:" + p.keyId, p.nonce, v.now);
      }
    }
  }

  /** A rejected token registers nothing: one that is not genuine does not come to the store, and
      one whose nonce is taken is not accepted there. */
  lemma RejectedRegistersNothing(vs: seq<Visit>, v: Visit)
    requires v.Validate? && Answer(vs, v).Rejected?
    ensures Genuine(v.token, v.keys, v.now) ==>
      |Requests(vs + [v])| == |Requests(vs)| + 1 && Run(Requests(vs + [v])).1 == Run(Requests(vs)).1 + [false]
    ensures !Genuine(v.token, v.keys, v.now) ==> Requests(vs + [v]) == Requests(vs)
  {
    assert (vs + [v])[..|vs|] == vs;
    if Genuine(v.token, v.keys, v.now) {
      var rs := Requests(vs);
      var r := Request(KeyOf(v.token.payload), MEMORY, v.now, v.before, v.after);
      AnswerParts(vs, v, r);
      assert (rs + [r])[..|rs|] == rs;
    } else {
      assert Requests(vs) + [] == Requests(vs);
    }
  }

  /** An accepted token uses its nonce up: it is registered under its key for two minutes. */
  lemma AcceptedIsRegistered(vs: seq<Visit>, v: Visit)
    requires v.Validate? && Answer(vs, v).Identity?
    ensures var p := v.token.payload; var r := Request(("stream:" + p.keyId, p.nonce), 120.0, v.now, v.before, v.after);
      && Requests(vs + [v]) == Requests(vs) + [r]
      && Run(Requests(vs + [v])).1 == Run(Requests(vs)).1 + [true]
  {
    var rs, r := Requests(vs), Request(KeyOf(v.token.payload), MEMORY, v.now, v.before, v.after);
    AnswerParts(vs, v, r);
    assert (rs + [r])[..|rs|] == rs;
  }

  predicate Accepted(vs: seq<Visit>, i: nat)
    requires i < |vs|
  {
    vs[i].Validate? && Answer(vs[..i], vs[i]).Identity?
  }

  /** An accepted validation is an accepted registration. */
  lemma AcceptedRegistration(vs: seq<Visit>, i: nat) returns (k: nat)
    requires i < |vs| && vs[i].Validate? && Verify(vs[i].token, vs[i].keys, vs[i].now).Identity?
    ensures k == |Requests(vs[..i])| && k < |Requests(vs)|
    ensures |Run(Requests(vs)).1| == |Requests(vs)| && Run(Requests(vs)).1[k] == Accepted(vs, i)
    ensures var r := Requests(vs)[k]; r.key == KeyOf(vs[i].token.payload) && r.now == vs[i].now && r.ttl == MEMORY
  {
    var rs, before := Requests(vs), Requests(vs[..i]);
    var r := Request(KeyOf(vs[i].token.payload), MEMORY, vs[i].now, vs[i].before, vs[i].after);
    k := |before|;
    RequestsGrow(vs, i);
    AnswerParts(vs[..i], vs[i], r);
    RequestAt(rs, before, r);
  }

  lemma RequestAt(rs: seq<Request>, before: seq<Request>, r: Request)
    requires before + [r] <= rs
    ensures rs[|before|] == r && |Run(rs).1| == |rs| && Run(rs).1[|before|] == Registered(Run(before).0, r).1
  {
    assert rs[..|before|] == before;
    AnswerAt(rs, |before|);
  }

  /** No token is accepted again within the memory of its nonce. */
  lemma NotWithinMemory(vs: seq<Visit>, i: nat, j: nat)
    requires Clocked(Requests(vs)) && i < j < |vs| && Accepted(vs, i) && Accepted(vs, j)
    requires KeyOf(vs[i].token.payload) == KeyOf(vs[j].token.payload)
    ensures vs[i].now + MEMORY <= vs[j].now
  {
    var a := AcceptedRegistration(vs, i);
    var b := AcceptedRegistration(vs, j);
    var rs := Requests(vs);
    RequestsOrdered(vs, i, j);
    AnswersFollowHistory(rs, b);
  }

  lemma {:induction false} RequestsOrdered(vs: seq<Visit>, i: nat, j: nat)
    requires i < j <= |vs|
    ensures |Requests(vs[..i])| + |RequestOf(vs[i])| <= |Requests(vs[..j])|
  {
    RequestsGrow(vs[..j], i);
    assert vs[..j][..i + 1] == vs[..i + 1] && vs[..j][..i] == vs[..i];
  }

  lemma AcceptedInLife(vs: seq<Visit>, i: nat)
    requires i < |vs| && Accepted(vs, i)
    ensures vs[i].token.Signed? && vs[i].now.Floor <= vs[i].token.payload.exp
  {
  }

  lemma LifeIsShort(minted: real, first: real, second: real)
    requires minted <= first && second.Floor <= minted.Floor + LIFE
    ensures second < first + MEMORY
  {
  }

  /** A token minted on the same clock is accepted at most once ever, whatever the stores drop and
      whoever else registers. */
  lemma SingleUse(vs: seq<Visit>, i: nat, j: nat, minted: real)
    requires Clocked(Requests(vs)) && i < |vs| && j < |vs| && Accepted(vs, i) && Accepted(vs, j)
    requires vs[i].token == vs[j].token && vs[i].token.payload.exp == minted.Floor + LIFE
    requires minted <= vs[i].now && minted <= vs[j].now
    ensures i == j
  {
    AcceptedInLife(vs, i);
    AcceptedInLife(vs, j);
    LifeIsShort(minted, vs[i].now, vs[j].now);
    LifeIsShort(minted, vs[j].now, vs[i].now);
    if i < j { NotWithinMemory(vs, i, j); }
    if j < i { NotWithinMemory(vs, j, i); }
  }

  /** What Create mints is verified as its owner's by exactly those who have its secret, a non-empty
      one, under its key, for its whole life of a minute. */
  lemma MintedVerifies(tenant: string, userId: string, userName: string, keyId: string, secret: string, minted: real,
                       nonce: string, keys: map<string, string>, now: real)
    ensures var t := Create(tenant, userId, userName, keyId, secret, minted, nonce);
      var held := keyId in keys && keys[keyId] == secret && secret != "";
      && (Verify(t, keys, now).Identity? <==> held && now.Floor <= minted.Floor + 60)
      && (Verify(t, keys, now).Identity? ==> Verify(t, keys, now) == Identity(tenant, userId, userName))
      && t.payload.exp == minted.Floor + 60 && t.payload.nonce == nonce
  {
  }

  /** The life of the token is what does it: a properly signed token accepted now can be accepted
      again at some later moment exactly when it lives on past the memory of its nonce. */
  lemma SecondUseIff(vs: seq<Visit>, v: Visit)
    requires v.Validate? && Clocked(Requests(vs + [v])) && Answer(vs, v).Identity?
    ensures (exists later: real :: v.now <= later && Answer(vs + [v], v.(now := later)).Identity?)
      <==> (v.now + MEMORY).Floor <= v.token.payload.exp
  {
    var p := v.token.payload;
    forall later: real | v.now <= later
      ensures Answer(vs + [v], v.(now := later)).Identity? <==> later.Floor <= p.exp && v.now + MEMORY <= later
    {
      SecondAnswer(vs, v, later);
    }
    var first := v.now + MEMORY;
    if first.Floor <= p.exp { assert Answer(vs + [v], v.(now := first)).Identity?; }
  }

  lemma VerifyLater(t: Token, keys: map<string, string>, now: real, later: real)
    requires Verify(t, keys, now).Identity?
    ensures t.Signed? && (Verify(t, keys, later).Identity? <==> later.Floor <= t.payload.exp)
  {
  }

  /** What an answer is made of. */
  lemma AnswerParts(vs: seq<Visit>, v: Visit, r: Request)
    requires v.Validate? && Verify(v.token, v.keys, v.now).Identity?
    requires r == Request(KeyOf(v.token.payload), MEMORY, v.now, v.before, v.after)
    ensures Answer(vs, v).Identity? <==> Registered(Run(Requests(vs)).0, r).1
    ensures Requests(vs + [v]) == Requests(vs) + [r]
  {
    assert (vs + [v])[..|vs|] == vs;
  }

  lemma SecondAnswer(vs: seq<Visit>, v: Visit, later: real)
    requires v.Validate? && Clocked(Requests(vs + [v])) && Answer(vs, v).Identity? && v.now <= later
    ensures Answer(vs + [v], v.(now := later)).Identity? <==> later.Floor <= v.token.payload.exp && v.now + MEMORY <= later
  {
    var p, again := v.token.payload, v.(now := later);
    var first := Request(KeyOf(p), MEMORY, v.now, v.before, v.after);
    var second := Request(KeyOf(p), MEMORY, later, v.before, v.after);
    VerifyLater(v.token, v.keys, v.now, later);
    AnswerParts(vs, v, first);
    if Verify(again.token, again.keys, again.now).Identity? {
      AnswerParts(vs + [v], again, second);
      ClockedLater(Requests(vs), first, second);
      OnceAccepted(Requests(vs), first, second);
    }
  }

  lemma ClockedLater(rs: seq<Request>, first: Request, second: Request)
    requires Clocked(rs + [first]) && first.now <= second.now
    ensures Clocked(rs + [first, second])
  {
    var all, some := rs + [first, second], rs + [first];
    assert forall i | 0 <= i < |some| :: all[i] == some[i];
    assert some[|rs|] == first;
  }
}
