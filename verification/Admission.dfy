/** Screening candidates in batches until enough are admitted. */
module Admission {
  import opened Options
  import opened RuntimeContracts

  const SCREENING_BATCH_SIZE: nat := 64

  datatype Admission = Admission(admitted: seq<Candidate>, keys: seq<string>, screened: nat, unique: nat, admissible: nat,
                                 complete: bool)

  /** The variables of the scan. */
  datatype Scan = Scan(admitted: seq<Candidate>, seen: set<string>, position: nat, screened: nat, admissible: nat)

  // ---- what should be admitted -----------------------------------------------------------------------------

  predicate FirstOfKey(o: Oracle, candidates: seq<Candidate>, i: nat)
    requires i < |candidates|
  {
    forall j | 0 <= j < i :: o.key(candidates[j]) != o.key(candidates[i])
  }

  /** The first candidate of each key. */
  function FirstOfEachKey(o: Oracle, candidates: seq<Candidate>): seq<Candidate> {
    if candidates == [] then []
    else
      var n := |candidates| - 1;
      FirstOfEachKey(o, candidates[..n]) + if FirstOfKey(o, candidates, n) then [candidates[n]] else []
  }

  /** Those that pass screening, in order. */
  function Passing(o: Oracle, candidates: seq<Candidate>): seq<Candidate> {
    if candidates == [] then []
    else
      var n := |candidates| - 1;
      Passing(o, candidates[..n]) + if o.screen(candidates[n]) then [candidates[n]] else []
  }

  function Limited(limit: Option<nat>, s: seq<Candidate>): seq<Candidate> {
    if limit.Some? && limit.value < |s| then s[..limit.value] else s
  }

  function KeysOf(o: Oracle, s: seq<Candidate>): (k: seq<string>)
    ensures |k| == |s| && forall i | 0 <= i < |s| :: k[i] == o.key(s[i])
  {
    seq(|s|, i requires 0 <= i < |s| => o.key(s[i]))
  }

  function KeySet(o: Oracle, s: seq<Candidate>): set<string> {
    set c | c in s :: o.key(c)
  }

  // ---- the scan --------------------------------------------------------------------------------------------

  /** A batch: up to `size` more candidates of new keys, or `None` at an empty key. */
  function Gather(o: Oracle, candidates: seq<Candidate>, position: nat, seen: set<string>, batch: seq<Candidate>, size: nat):
    (r: Option<(nat, set<string>, seq<Candidate>)>)
    requires position <= |candidates|
    ensures r.Some? ==> position <= r.value.0 <= |candidates|
    ensures r.Some? && |batch| < size && position < |candidates| ==> position < r.value.0
    decreases |candidates| - position
  {
    if position == |candidates| || |batch| >= size then Some((position, seen, batch))
    else
      var key := o.key(candidates[position]);
      if key == "" then None
      else if key in seen then Gather(o, candidates, position + 1, seen, batch, size)
      else Gather(o, candidates, position + 1, seen + {key}, batch + [candidates[position]], size)
  }

  function BatchSize(limit: Option<nat>): nat {
    if limit.None? || limit.value >= SCREENING_BATCH_SIZE then SCREENING_BATCH_SIZE else limit.value
  }

  function Screened(o: Oracle, limit: Option<nat>, s: Scan, position: nat, seen: set<string>, batch: seq<Candidate>): Scan {
    Scan(Limited(limit, s.admitted + Passing(o, batch)), seen, position, s.screened + |batch|, s.admissible + |Passing(o, batch)|)
  }

  /** The rest of the scan. */
  function ScanOn(o: Oracle, candidates: seq<Candidate>, limit: Option<nat>, s: Scan): Option<Scan>
    requires s.position <= |candidates| && (limit.Some? ==> limit.value > 0)
    decreases |candidates| - s.position
  {
    if s.position == |candidates| || (limit.Some? && |s.admitted| >= limit.value) then Some(s)
    else
      match Gather(o, candidates, s.position, s.seen, [], BatchSize(limit))
      case None => None
      case Some((position, seen, batch)) => ScanOn(o, candidates, limit, Screened(o, limit, s, position, seen, batch))
  }

  const SCAN_START := Scan([], {}, 0, 0, 0)

  function AdmissionOf(o: Oracle, candidates: seq<Candidate>, limit: Option<nat>): Option<Admission>
    requires limit.Some? ==> limit.value > 0
  {
    match ScanOn(o, candidates, limit, SCAN_START)
    case None => None
    case Some(s) =>
      if s.seen == {} then None
      else Some(Admission(s.admitted, KeysOf(o, s.admitted), s.screened, |s.seen|, s.admissible, s.position == |candidates|))
  }

  // ---- the scan's loops ------------------------------------------------------------------------------------

  method GatherBatch(o: Oracle, candidates: seq<Candidate>, from: nat, known: set<string>, size: nat)
    returns (emptyKey: bool, position: nat, seen: set<string>, batch: seq<Candidate>)
    requires from <= |candidates|
    ensures emptyKey <==> Gather(o, candidates, from, known, [], size) == None
    ensures !emptyKey ==> Gather(o, candidates, from, known, [], size) == Some((position, seen, batch))
  {
    emptyKey, position, seen, batch := false, from, known, [];
    while position < |candidates| && |batch| < size
      invariant from <= position <= |candidates| && !emptyKey
      invariant Gather(o, candidates, from, known, [], size) == Gather(o, candidates, position, seen, batch, size)
      decreases |candidates| - position
    {
      var candidate := candidates[position];
      var key := o.key(candidate);
      if key == "" {
        return true, position, seen, batch;
      }
      position := position + 1;
      if key !in seen {
        seen := seen + {key};
        batch := batch + [candidate];
      }
    }
  }

  method ScreenBatch(o: Oracle, limit: Option<nat>, batch: seq<Candidate>, held: seq<Candidate>, heldKeys: seq<string>)
    returns (admitted: seq<Candidate>, keys: seq<string>, admissible: nat)
    requires heldKeys == KeysOf(o, held) && (limit.Some? ==> |held| <= limit.value)
    ensures admitted == Limited(limit, held + Passing(o, batch)) && keys == KeysOf(o, admitted)
    ensures admissible == |Passing(o, batch)|
  {
    admitted, keys, admissible := held, heldKeys, 0;
    assert batch[..0] == [];
    for i := 0 to |batch|
      invariant admissible == |Passing(o, batch[..i])| && keys == KeysOf(o, admitted)
      invariant admitted == Limited(limit, held + Passing(o, batch[..i]))
    {
      assert batch[..i + 1][..i] == batch[..i];
      if o.screen(batch[i]) {
        admissible := admissible + 1;
        assert held + (Passing(o, batch[..i]) + [batch[i]]) == held + Passing(o, batch[..i]) + [batch[i]];
        if limit.None? || |admitted| < limit.value {
          admitted, keys := admitted + [batch[i]], keys + [o.key(batch[i])];
        }
      }
    }
    assert batch[..|batch|] == batch;
  }

  method AdmitCandidates(o: Oracle, candidates: seq<Candidate>, limit: Option<nat>) returns (r: Option<Admission>)
    requires limit.Some? ==> limit.value > 0
    ensures r == AdmissionOf(o, candidates, limit)
  {
    hide Gather, Passing;
    var s := SCAN_START;
    var keys: seq<string> := [];
    while s.position < |candidates| && (limit.None? || |s.admitted| < limit.value)
      invariant s.position <= |candidates| && keys == KeysOf(o, s.admitted) && (limit.Some? ==> |s.admitted| <= limit.value)
      invariant ScanOn(o, candidates, limit, SCAN_START) == ScanOn(o, candidates, limit, s)
      decreases |candidates| - s.position
    {
      var emptyKey, position, seen, batch := GatherBatch(o, candidates, s.position, s.seen, BatchSize(limit));
      if emptyKey {
        return None;
      }
      GatherMoves(o, candidates, s, limit);
      var admitted, more;
      admitted, keys, more := ScreenBatch(o, limit, batch, s.admitted, keys);
      s := Scan(admitted, seen, position, s.screened + |batch|, s.admissible + more);
    }
    if s.seen == {} {
      return None;
    }
    return Some(Admission(s.admitted, keys, s.screened, |s.seen|, s.admissible, s.position == |candidates|));
  }

  lemma GatherMoves(o: Oracle, candidates: seq<Candidate>, s: Scan, limit: Option<nat>)
    requires s.position < |candidates| && (limit.Some? ==> limit.value > 0)
    ensures var g := Gather(o, candidates, s.position, s.seen, [], BatchSize(limit));
      g.Some? ==> s.position < g.value.0 <= |candidates|
  {
  }

  // ---- batches do not matter ---------------------------------------------------------------------------------

  lemma {:induction false} PassingAppend(o: Oracle, a: seq<Candidate>, b: seq<Candidate>)
    ensures Passing(o, a + b) == Passing(o, a) + Passing(o, b)
  {
    if b == [] {
      assert a + b == a;
    } else {
      assert (a + b)[..|a + b| - 1] == a + b[..|b| - 1];
      PassingAppend(o, a, b[..|b| - 1]);
    }
  }

  ghost predicate Seen(o: Oracle, candidates: seq<Candidate>, position: nat, seen: set<string>)
    requires position <= |candidates|
  {
    && seen == KeySet(o, candidates[..position]) && |seen| == |FirstOfEachKey(o, candidates[..position])|
    && (forall i | 0 <= i < position :: o.key(candidates[i]) != "")
  }

  lemma SeenStep(o: Oracle, candidates: seq<Candidate>, position: nat, seen: set<string>)
    requires position < |candidates| && Seen(o, candidates, position, seen) && o.key(candidates[position]) != ""
    ensures o.key(candidates[position]) in seen ==> seen + {o.key(candidates[position])} == seen
    ensures Seen(o, candidates, position + 1, seen + {o.key(candidates[position])})
    ensures o.key(candidates[position]) in seen <==> !FirstOfKey(o, candidates[..position + 1], position)
    ensures FirstOfEachKey(o, candidates[..position + 1]) == FirstOfEachKey(o, candidates[..position])
      + if o.key(candidates[position]) in seen then [] else [candidates[position]]
  {
    var next, prefix := candidates[..position + 1], candidates[..position];
    assert next[..position] == prefix && next == prefix + [candidates[position]];
    assert forall c | c in next :: c in prefix || c == candidates[position];
    assert forall c | c in prefix :: c in next;
    forall i | 0 <= i < position ensures candidates[i] in prefix { assert prefix[i] == candidates[i]; }
  }

  /** What a gathered batch contributes. */
  lemma {:induction false} GatherExact(o: Oracle, candidates: seq<Candidate>, position: nat, seen: set<string>,
                                       batch: seq<Candidate>, size: nat, front: seq<Candidate>)
    requires position <= |candidates| && Seen(o, candidates, position, seen)
    requires FirstOfEachKey(o, candidates[..position]) == front + batch
    ensures match Gather(o, candidates, position, seen, batch, size)
      case None => exists i | position <= i < |candidates| :: o.key(candidates[i]) == ""
      case Some((p, s, b)) => Seen(o, candidates, p, s) && FirstOfEachKey(o, candidates[..p]) == front + b
    decreases |candidates| - position
  {
    if !(position == |candidates| || |batch| >= size) && o.key(candidates[position]) != "" {
      SeenStep(o, candidates, position, seen);
      var key := o.key(candidates[position]);
      if key in seen {
        assert seen + {key} == seen;
        GatherExact(o, candidates, position + 1, seen, batch, size, front);
      } else {
        assert front + batch + [candidates[position]] == front + (batch + [candidates[position]]);
        GatherExact(o, candidates, position + 1, seen + {key}, batch + [candidates[position]], size, front);
      }
    }
  }

  /** The scan so far holds the limited admissible candidates of the prefix it has read. */
  ghost predicate ScanExact(o: Oracle, candidates: seq<Candidate>, limit: Option<nat>, s: Scan) {
    && s.position <= |candidates| && Seen(o, candidates, s.position, s.seen)
    && s.admitted == Limited(limit, Passing(o, FirstOfEachKey(o, candidates[..s.position])))
    && s.screened == |FirstOfEachKey(o, candidates[..s.position])|
    && s.admissible == |Passing(o, FirstOfEachKey(o, candidates[..s.position]))|
  }

  lemma {:induction false} ScanOnExact(o: Oracle, candidates: seq<Candidate>, limit: Option<nat>, s: Scan)
    requires ScanExact(o, candidates, limit, s) && (limit.Some? ==> limit.value > 0)
    ensures match ScanOn(o, candidates, limit, s)
      case None => exists i | 0 <= i < |candidates| :: o.key(candidates[i]) == ""
      case Some(e) =>
        && ScanExact(o, candidates, limit, e) && e.position >= s.position
        && (e.position == |candidates| || (limit.Some? && |e.admitted| >= limit.value))
    decreases |candidates| - s.position
  {
    if !(s.position == |candidates| || (limit.Some? && |s.admitted| >= limit.value)) {
      var front := FirstOfEachKey(o, candidates[..s.position]);
      assert front + [] == front;
      GatherExact(o, candidates, s.position, s.seen, [], BatchSize(limit), front);
      match Gather(o, candidates, s.position, s.seen, [], BatchSize(limit))
      case None =>
      case Some((position, seen, batch)) =>
        PassingAppend(o, front, batch);
        ScanOnExact(o, candidates, limit, Screened(o, limit, s, position, seen, batch));
    }
  }

  /** Reading on only adds at the end. */
  lemma {:induction false} MoreAtTheEnd(o: Oracle, candidates: seq<Candidate>, position: nat)
    requires position <= |candidates|
    ensures FirstOfEachKey(o, candidates[..position]) <= FirstOfEachKey(o, candidates)
    ensures Passing(o, FirstOfEachKey(o, candidates[..position])) <= Passing(o, FirstOfEachKey(o, candidates))
    decreases |candidates|
  {
    if position < |candidates| {
      var n := |candidates| - 1;
      assert candidates[..n][..position] == candidates[..position];
      MoreAtTheEnd(o, candidates[..n], position);
      PassingAppend(o, FirstOfEachKey(o, candidates[..n]), if FirstOfKey(o, candidates, n) then [candidates[n]] else []);
    } else {
      assert candidates[..position] == candidates;
    }
  }

  /** Batched, early-stopping admission is the first `limit` of the screened, deduplicated candidates; it fails only
      on an empty key or without candidates. */
  lemma AdmissionExact(o: Oracle, candidates: seq<Candidate>, limit: Option<nat>)
    requires limit.Some? ==> limit.value > 0
    ensures match AdmissionOf(o, candidates, limit)
      case None => candidates == [] || exists i | 0 <= i < |candidates| :: o.key(candidates[i]) == ""
      case Some(a) =>
        && a.admitted == Limited(limit, Passing(o, FirstOfEachKey(o, candidates))) && a.keys == KeysOf(o, a.admitted)
        && |a.admitted| <= a.admissible <= a.screened == a.unique
        && (a.complete ==> a.admissible == |Passing(o, FirstOfEachKey(o, candidates))|)
        && (!a.complete ==> limit == Some(|a.admitted|))
  {
    hide ScanOn, Gather, FirstOfEachKey, Passing;
    assert candidates[..0] == [];
    StartExact(o, candidates, limit);
    ScanOnExact(o, candidates, limit, SCAN_START);
    match ScanOn(o, candidates, limit, SCAN_START)
    case None =>
    case Some(e) =>
      MoreAtTheEnd(o, candidates, e.position);
      assert candidates[..|candidates|] == candidates;
      if e.position > 0 { assert candidates[0] in candidates[..e.position] && o.key(candidates[0]) in e.seen; }
      PassingShorter(o, FirstOfEachKey(o, candidates[..e.position]));
  }

  lemma StartExact(o: Oracle, candidates: seq<Candidate>, limit: Option<nat>)
    ensures ScanExact(o, candidates, limit, SCAN_START)
  {
    assert candidates[..0] == [];
  }

  lemma {:induction false} PassingShorter(o: Oracle, s: seq<Candidate>)
    ensures |Passing(o, s)| <= |s|
  {
    if s != [] { PassingShorter(o, s[..|s| - 1]); }
  }
}
