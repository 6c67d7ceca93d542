/** How much admission screens: whole batches, and none once the limit is reached. */
module AdmissionWork {
  import opened Options
  import opened RuntimeContracts
  import opened Admission

  /** After `batches` batches of `size`, fewer admissible candidates than the limit in every whole number of batches before. */
  ghost predicate Frugal(o: Oracle, candidates: seq<Candidate>, limit: Option<nat>, s: Scan, size: nat, batches: nat) {
    && s.position <= |candidates| && (s.screened == batches * size || s.position == |candidates|)
    && (var first := FirstOfEachKey(o, candidates[..s.position]);
        && s.screened == |first|
        && forall j: nat | j * size < s.screened :: limit.Some? ==> |Passing(o, first[..j * size])| < limit.value)
  }

  /** A batch is full, unless the candidates have run out. */
  lemma {:induction false} GatherFills(o: Oracle, candidates: seq<Candidate>, position: nat, seen: set<string>, batch: seq<Candidate>, size: nat)
    requires position <= |candidates| && |batch| <= size
    ensures match Gather(o, candidates, position, seen, batch, size)
      case None => true
      case Some((p, _, b)) => |b| <= size && (|b| == size || p == |candidates|)
    decreases |candidates| - position
  {
    if !(position == |candidates| || |batch| >= size) && o.key(candidates[position]) != "" {
      var key := o.key(candidates[position]);
      if key in seen {
        GatherFills(o, candidates, position + 1, seen, batch, size);
      } else {
        GatherFills(o, candidates, position + 1, seen + {key}, batch + [candidates[position]], size);
      }
    }
  }

  lemma MultiplesApart(j: nat, b: nat, size: nat)
    requires b * size < j * size
    ensures (b + 1) * size <= j * size
  {
    if b < j { Ordered(b + 1, j, size); } else { Ordered(j, b, size); }
  }

  lemma Ordered(a: nat, b: nat, size: nat)
    requires a <= b
    ensures a * size <= b * size
  {
    assert (b - a) * size >= 0;
    assert b * size == a * size + (b - a) * size;
  }

  lemma FrugalStep(o: Oracle, candidates: seq<Candidate>, limit: Option<nat>, s: Scan, t: Scan, size: nat, batches: nat, batch: seq<Candidate>)
    requires Frugal(o, candidates, limit, s, size, batches) && s.screened == batches * size && t.position <= |candidates|
    requires FirstOfEachKey(o, candidates[..t.position]) == FirstOfEachKey(o, candidates[..s.position]) + batch
    requires t.screened == s.screened + |batch| && |batch| <= size && (|batch| == size || t.position == |candidates|)
    requires limit.Some? ==> |Passing(o, FirstOfEachKey(o, candidates[..s.position]))| < limit.value
    ensures Frugal(o, candidates, limit, t, size, batches + 1)
  {
    hide Passing, FirstOfEachKey;
    var first, more := FirstOfEachKey(o, candidates[..s.position]), FirstOfEachKey(o, candidates[..t.position]);
    assert (batches + 1) * size == batches * size + size;
    forall j: nat | j * size < t.screened ensures limit.Some? ==> |Passing(o, more[..j * size])| < limit.value {
      if j * size > batches * size { MultiplesApart(j, batches, size); }
      assert j * size <= |first|;
      assert more[..j * size] == first[..j * size];
      if j * size == |first| { assert first[..j * size] == first; }
    }
  }

  lemma {:induction false} ScanOnFrugal(o: Oracle, candidates: seq<Candidate>, limit: Option<nat>, s: Scan, batches: nat)
    returns (last: nat)
    requires ScanExact(o, candidates, limit, s) && (limit.Some? ==> limit.value > 0)
    requires Frugal(o, candidates, limit, s, BatchSize(limit), batches)
    ensures match ScanOn(o, candidates, limit, s)
      case None => true
      case Some(e) => Frugal(o, candidates, limit, e, BatchSize(limit), last)
    decreases |candidates| - s.position
  {
    hide Passing, FirstOfEachKey, Frugal;
    last := batches;
    if !(s.position == |candidates| || (limit.Some? && |s.admitted| >= limit.value)) {
      var size := BatchSize(limit);
      var front := FirstOfEachKey(o, candidates[..s.position]);
      assert front + [] == front;
      GatherExact(o, candidates, s.position, s.seen, [], size, front);
      GatherFills(o, candidates, s.position, s.seen, [], size);
      match Gather(o, candidates, s.position, s.seen, [], size)
      case None =>
      case Some((position, seen, batch)) =>
        var next := Screened(o, limit, s, position, seen, batch);
        PassingAppend(o, front, batch);
        NotDone(o, candidates, limit, s, size, batches);
        FrugalStep(o, candidates, limit, s, next, size, batches, batch);
        last := ScanOnFrugal(o, candidates, limit, next, batches + 1);
    }
  }

  lemma NotDone(o: Oracle, candidates: seq<Candidate>, limit: Option<nat>, s: Scan, size: nat, batches: nat)
    requires Frugal(o, candidates, limit, s, size, batches) && s.position < |candidates|
    ensures s.screened == batches * size
  {
  }

  /** Admission screens the deduplicated candidates in batches of the limit, at most 64: as many batches as it takes to
      reach the limit, and otherwise all of them; and it counts those that are admissible. */
  lemma ScreensNoMore(o: Oracle, candidates: seq<Candidate>, limit: Option<nat>) returns (batches: nat)
    requires limit.Some? ==> limit.value > 0
    ensures var size := if limit.Some? && limit.value < 64 then limit.value else 64;
      match AdmissionOf(o, candidates, limit)
      case None => true
      case Some(a) =>
        var first := FirstOfEachKey(o, candidates);
        && a.screened <= |first| && a.admissible == |Passing(o, first[..a.screened])|
        && (a.screened == |first| || (a.screened == batches * size && limit.Some? && a.admissible >= limit.value))
        && (forall j: nat | j * size < a.screened :: limit.Some? ==> |Passing(o, first[..j * size])| < limit.value)
  {
    hide ScanOn, Gather, FirstOfEachKey, Passing, Limited, Frugal, ScanExact, KeysOf;
    StartExact(o, candidates, limit);
    ScanOnExact(o, candidates, limit, SCAN_START);
    StartFrugal(o, candidates, limit);
    batches := ScanOnFrugal(o, candidates, limit, SCAN_START, 0);
    match ScanOn(o, candidates, limit, SCAN_START)
    case None =>
    case Some(e) => ScreenedSoFar(o, candidates, limit, e, BatchSize(limit), batches);
  }

  /** What a scan that is over has screened. */
  lemma ScreenedSoFar(o: Oracle, candidates: seq<Candidate>, limit: Option<nat>, e: Scan, size: nat, batches: nat)
    requires ScanExact(o, candidates, limit, e) && Frugal(o, candidates, limit, e, size, batches)
    requires e.position == |candidates| || (limit.Some? && |e.admitted| >= limit.value)
    ensures var first := FirstOfEachKey(o, candidates);
      && e.screened <= |first| && e.admissible == |Passing(o, first[..e.screened])|
      && (e.screened == |first| || (e.screened == batches * size && limit.Some? && e.admissible >= limit.value))
      && (forall j: nat | j * size < e.screened :: limit.Some? ==> |Passing(o, first[..j * size])| < limit.value)
  {
    hide FirstOfEachKey, Passing, Limited, Seen;
    MoreAtTheEnd(o, candidates, e.position);
    var first, read := FirstOfEachKey(o, candidates), FirstOfEachKey(o, candidates[..e.position]);
    assert first[..|read|] == read;
    assert candidates[..|candidates|] == candidates;
    LimitReached(limit, Passing(o, read));
    forall j: nat | j * size < e.screened ensures first[..j * size] == read[..j * size] { }
  }

  lemma LimitReached(limit: Option<nat>, s: seq<Candidate>)
    ensures limit.Some? && |Limited(limit, s)| >= limit.value ==> |s| >= limit.value
  {
  }

  lemma StartFrugal(o: Oracle, candidates: seq<Candidate>, limit: Option<nat>)
    ensures Frugal(o, candidates, limit, SCAN_START, BatchSize(limit), 0)
  {
    assert candidates[..0] == [];
    assert FirstOfEachKey(o, []) == [];
  }
}
