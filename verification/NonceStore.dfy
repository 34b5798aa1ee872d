/** The replay stores (app/core/nonce_store.py): a (scope, nonce) pair is accepted once within its
    TTL. Stores drop expired entries when they like; nobody can tell. */
module NonceStore {

  type Key = (string, string)
  type Seen = map<Key, real>

  const PRUNE_THRESHOLD: nat := 1024

  /** One registration; `before` and `after` are the entries the store drops, if expired, before
      and after it looks. */
  datatype Request = Request(key: Key, ttl: real, now: real, before: set<Key>, after: set<Key>)

  function Drop(seen: Seen, keys: set<Key>, now: real): Seen {
    map k | k in seen && !(k in keys && seen[k] <= now) :: seen[k]
  }

  predicate Accepts(seen: Seen, key: Key, now: real) {
    (if key in seen then seen[key] else 0.0) <= now
  }

  function Registered(seen: Seen, r: Request): (Seen, bool) {
    var s := Drop(seen, r.before, r.now);
    var ok := Accepts(s, r.key, r.now);
    (Drop(if ok then s[r.key := r.now + r.ttl] else s, r.after, r.now), ok)
  }

  /** The store and all its answers after these registrations. */
  function Run(rs: seq<Request>): (Seen, seq<bool>) {
    if rs == [] then (map[], [])
    else
      var before := Run(rs[..|rs| - 1]);
      var r := Registered(before.0, rs[|rs| - 1]);
      (r.0, before.1 + [r.1])
  }

  /** The clock is past its epoch and never goes back. */
  predicate Clocked(rs: seq<Request>) {
    && (forall i | 0 <= i < |rs| :: rs[i].now >= 0.0)
    && forall i, j | 0 <= i <= j < |rs| :: rs[i].now <= rs[j].now
  }

  /** Registration `i` was accepted for `key`. */
  predicate AcceptedFor(rs: seq<Request>, answers: seq<bool>, i: int, key: Key) {
    0 <= i < |rs| && i < |answers| && answers[i] && rs[i].key == key
  }

  function Expiry(r: Request): real {
    r.now + r.ttl
  }

  /** What the map remembers at time `now` of the registrations so far: every accepted one that
      has not expired, under at least its expiry, and nothing that was not accepted. */
  ghost predicate Remembers(seen: Seen, rs: seq<Request>, answers: seq<bool>, now: real) {
    && |answers| == |rs|
    && (forall i, key | AcceptedFor(rs, answers, i, key) && Expiry(rs[i]) > now :: key in seen && seen[key] >= Expiry(rs[i]))
    && (forall key | key in seen :: exists i :: AcceptedFor(rs, answers, i, key) && Expiry(rs[i]) == seen[key])
  }

  lemma DropRemembers(seen: Seen, keys: set<Key>, rs: seq<Request>, answers: seq<bool>, earlier: real, now: real)
    requires Remembers(seen, rs, answers, earlier) && earlier <= now
    ensures Remembers(Drop(seen, keys, now), rs, answers, now)
  {
  }

  /** The answer of a store that remembers: yes exactly when no accepted registration of the same
      key is unexpired. */
  lemma AnswerIs(seen: Seen, rs: seq<Request>, answers: seq<bool>, key: Key, now: real)
    requires Remembers(seen, rs, answers, now) && now >= 0.0
    ensures Accepts(seen, key, now) <==> forall i | AcceptedFor(rs, answers, i, key) :: Expiry(rs[i]) <= now
  {
    if key in seen {
      var i :| AcceptedFor(rs, answers, i, key) && Expiry(rs[i]) == seen[key];
    }
  }

  lemma AddRemembers(seen: Seen, rs: seq<Request>, answers: seq<bool>, r: Request)
    requires Remembers(seen, rs, answers, r.now) && r.now >= 0.0
    ensures var ok := Accepts(seen, r.key, r.now);
      Remembers(if ok then seen[r.key := Expiry(r)] else seen, rs + [r], answers + [ok], r.now)
  {
    var ok := Accepts(seen, r.key, r.now);
    AnswerIs(seen, rs, answers, r.key, r.now);
    var next := if ok then seen[r.key := Expiry(r)] else seen;
    var rs', answers' := rs + [r], answers + [ok];
    forall i, key | AcceptedFor(rs', answers', i, key) && Expiry(rs'[i]) > r.now
      ensures key in next && next[key] >= Expiry(rs'[i])
    {
      if i < |rs| { assert AcceptedFor(rs, answers, i, key); }
    }
    forall key | key in next ensures exists i :: AcceptedFor(rs', answers', i, key) && Expiry(rs'[i]) == next[key] {
      if ok && key == r.key {
        assert AcceptedFor(rs', answers', |rs|, key);
      } else {
        var i :| AcceptedFor(rs, answers, i, key) && Expiry(rs[i]) == seen[key];
        assert AcceptedFor(rs', answers', i, key);
      }
    }
  }

  lemma StepRemembers(seen: Seen, rs: seq<Request>, answers: seq<bool>, earlier: real, r: Request)
    requires Remembers(seen, rs, answers, earlier) && earlier <= r.now && r.now >= 0.0
    ensures var n := Registered(seen, r); Remembers(n.0, rs + [r], answers + [n.1], r.now)
  {
    var s := Drop(seen, r.before, r.now);
    DropRemembers(seen, r.before, rs, answers, earlier, r.now);
    AddRemembers(s, rs, answers, r);
    var ok := Accepts(s, r.key, r.now);
    DropRemembers(if ok then s[r.key := Expiry(r)] else s, r.after, rs + [r], answers + [ok], r.now, r.now);
  }

  function LastTime(rs: seq<Request>): real {
    if rs == [] then 0.0 else rs[|rs| - 1].now
  }

  lemma {:induction false} RunRemembers(rs: seq<Request>)
    requires Clocked(rs)
    ensures var r := Run(rs); Remembers(r.0, rs, r.1, LastTime(rs))
  {
    if rs != [] {
      var n := |rs| - 1;
      var before := Run(rs[..n]);
      RunRemembers(rs[..n]);
      StepRemembers(before.0, rs[..n], before.1, LastTime(rs[..n]), rs[n]);
      assert rs == rs[..n] + [rs[n]];
    }
  }

  lemma {:induction false} AnswersPrefix(rs: seq<Request>, j: nat)
    requires j <= |rs|
    ensures |Run(rs).1| == |rs| && Run(rs).1[..j] == Run(rs[..j]).1
  {
    if j < |rs| {
      AnswersPrefix(rs[..|rs| - 1], j);
      assert rs[..|rs| - 1][..j] == rs[..j];
    } else if rs != [] {
      AnswersPrefix(rs[..|rs| - 1], |rs| - 1);
      assert rs[..j] == rs;
    } else {
      assert rs[..j] == rs;
    }
  }

  /** Answer `j` is the one of the store after the requests before it. */
  lemma AnswerAt(rs: seq<Request>, j: nat)
    requires j < |rs|
    ensures |Run(rs).1| == |rs| && Run(rs).1[j] == Registered(Run(rs[..j]).0, rs[j]).1
  {
    AnswersPrefix(rs, j);
    AnswersPrefix(rs, j + 1);
    AnswersPrefix(rs[..j], j);
    assert rs[..j + 1][..j] == rs[..j];
    assert Run(rs).1[..j + 1][j] == Run(rs).1[j];
  }

  lemma AnswerByHistory(rs: seq<Request>, r: Request)
    requires Clocked(rs) && LastTime(rs) <= r.now && r.now >= 0.0
    ensures var before := Run(rs);
      Registered(before.0, r).1 <==> forall i | AcceptedFor(rs, before.1, i, r.key) :: Expiry(rs[i]) <= r.now
  {
    var before := Run(rs);
    RunRemembers(rs);
    DropRemembers(before.0, r.before, rs, before.1, LastTime(rs), r.now);
    AnswerIs(Drop(before.0, r.before, r.now), rs, before.1, r.key, r.now);
  }

  /** Every answer, whatever was dropped and when: a pair is accepted exactly when each earlier
      time it was accepted is past its TTL. */
  lemma AnswersFollowHistory(rs: seq<Request>, j: nat)
    requires Clocked(rs) && j < |rs|
    ensures |Run(rs).1| == |rs|
    ensures Run(rs).1[j] <==> forall i | 0 <= i < j && Run(rs).1[i] && rs[i].key == rs[j].key :: Expiry(rs[i]) <= rs[j].now
  {
    AnswerAt(rs, j);
    AnswersPrefix(rs, j);
    AnswerByHistory(rs[..j], rs[j]);
    var answers, before := Run(rs).1, Run(rs[..j]).1;
    forall i | 0 <= i < j ensures AcceptedFor(rs[..j], before, i, rs[j].key) <==> answers[i] && rs[i].key == rs[j].key {
      assert answers[..j][i] == answers[i];
    }
  }

  /** Once accepted, the same key is accepted again exactly when the TTL is over. */
  lemma OnceAccepted(rs: seq<Request>, first: Request, second: Request)
    requires Clocked(rs + [first, second]) && first.key == second.key
    requires Registered(Run(rs).0, first).1
    ensures Registered(Run(rs + [first]).0, second).1 <==> Expiry(first) <= second.now
  {
    var all, n := rs + [first, second], |rs|;
    assert all[..n] == rs && all[..n + 1] == rs + [first];
    AnswerAt(all, n);
    AnswerAt(all, n + 1);
    AnswersFollowHistory(all, n);
    AnswersFollowHistory(all, n + 1);
  }

  function Kept(rs: seq<Request>): (r: seq<Request>)
    ensures |r| == |rs| && forall i | 0 <= i < |rs| :: r[i] == rs[i].(before := {}, after := {})
  {
    seq(|rs|, i requires 0 <= i < |rs| => rs[i].(before := {}, after := {}))
  }

  /** Answer `n` follows from the earlier answers. */
  predicate Judged(rs: seq<Request>, answers: seq<bool>, n: nat)
    requires n < |rs| == |answers|
  {
    answers[n] <==> forall i | 0 <= i < n && answers[i] && rs[i].key == rs[n].key :: Expiry(rs[i]) <= rs[n].now
  }

  lemma SameNext(rs: seq<Request>, a: seq<bool>, b: seq<bool>, n: nat)
    requires n < |rs| == |a| == |b| && a[..n] == b[..n]
    requires Judged(rs, a, n) && Judged(Kept(rs), b, n)
    ensures a[..n + 1] == b[..n + 1]
  {
    forall i | 0 <= i < n ensures a[i] == b[i] { assert a[..n][i] == b[..n][i]; }
  }

  lemma {:induction false} SameAnswers(rs: seq<Request>, j: nat)
    requires Clocked(rs) && j <= |rs|
    ensures |Run(rs).1| == |Run(Kept(rs)).1| == |rs|
    ensures Run(rs).1[..j] == Run(Kept(rs)).1[..j]
  {
    AnswersPrefix(rs, 0);
    AnswersPrefix(Kept(rs), 0);
    if j > 0 {
      SameAnswers(rs, j - 1);
      AnswersFollowHistory(rs, j - 1);
      AnswersFollowHistory(Kept(rs), j - 1);
      SameNext(rs, Run(rs).1, Run(Kept(rs)).1, j - 1);
    }
  }

  /** Pruning is unobservable: every store gives the answers of one that forgets nothing. */
  lemma PruningUnobservable(rs: seq<Request>)
    requires Clocked(rs)
    ensures Run(rs).1 == Run(Kept(rs)).1
  {
    SameAnswers(rs, |rs|);
    assert Run(rs).1[..|rs|] == Run(rs).1 && Run(Kept(rs)).1[..|rs|] == Run(Kept(rs)).1;
  }

  // ---------------------------------------------------------------- the stores

  class InMemoryNonceStore {
    var seen: Seen

    constructor ()
      ensures seen == map[]
    {
      seen := map[];
    }

    method RegisterSync(scope: string, nonce: string, ttlSeconds: real, now: real) returns (ok: bool)
      modifies this
      ensures (seen, ok) == Registered(old(seen),
        Request((scope, nonce), ttlSeconds, now, if |old(seen)| > PRUNE_THRESHOLD then old(seen).Keys else {}, {}))
    {
      if |seen| > PRUNE_THRESHOLD {
        ghost var was := seen;
        var expired := set k | k in seen && seen[k] <= now;
        while expired != {}
          invariant expired <= set k | k in was && was[k] <= now
          invariant seen == map k | k in was && (was[k] <= now ==> k in expired) :: was[k]
          decreases expired
        {
          var k :| k in expired;
          seen := seen - {k};
          expired := expired - {k};
        }
        assert seen == Drop(was, was.Keys, now);
      } else {
        assert seen == Drop(seen, {}, now);
      }
      var key := (scope, nonce);
      var expiry := if key in seen then seen[key] else 0.0;
      if expiry > now {
        assert seen == Drop(seen, {}, now);
        return false;
      }
      seen := seen[key := now + ttlSeconds];
      assert seen == Drop(seen, {}, now);
      ok := true;
    }
  }

  function Cut(s: string): string {
    if |s| <= 200 then s else s[..200]
  }

  /** The shared store tells two keys apart unless both are long and start with the same 200
      characters. */
  lemma CutIff(s: string, t: string)
    ensures Cut(s) == Cut(t) <==> s == t || (|s| >= 200 && |t| >= 200 && s[..200] == t[..200])
  {
    assert |s| == 200 ==> s[..200] == s;
    assert |t| == 200 ==> t[..200] == t;
  }

  /** The shared store: one conditional upsert, now and then a clean-up. */
  class DatabaseNonceStore {
    var rows: Seen

    constructor ()
      ensures rows == map[]
    {
      rows := map[];
    }

    method Register(scope: string, nonce: string, ttlSeconds: real, now: real, prune: bool) returns (isNew: bool)
      requires now >= 0.0
      modifies this
      ensures var key := (Cut(scope), Cut(nonce));
        (rows, isNew) == Registered(old(rows), Request(key, ttlSeconds, now, {}, if prune then old(rows).Keys + {key} else {}))
    {
      var key := (Cut(scope), Cut(nonce));
      assert rows == Drop(rows, {}, now);
      isNew := key !in rows || rows[key] <= now;
      if isNew { rows := rows[key := now + ttlSeconds]; }
      ghost var was := rows;
      if prune { rows := map k | k in rows && rows[k] > now :: rows[k]; }
      assert rows == Drop(was, if prune then old(rows).Keys + {key} else {}, now);
    }
  }
}
