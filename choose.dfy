/**
 * Weighted choice of a target teleport (`TeleportObject.Choose`).
 *
 * The source prunes every entry whose chance is not positive from the list
 * it is given, in place, then draws `Random.value * total` and walks the
 * survivors, subtracting each chance from the draw until the draw falls
 * below one. If the walk runs out it returns the last survivor.
 * `Random.value` is the input `value` (Unity draws it from [0, 1], both ends
 * included).
 */
module WeightedChoice {
  import opened Wrappers
  import opened Serializable

  /** An entry survives pruning unless `Chance <= 0`. */
  predicate Survives(t: TargetTeleporter) {
    t.chance > 0.0
  }

  /** The entries that survive pruning, in list order. */
  function Pruned(ts: seq<TargetTeleporter>): (r: seq<TargetTeleporter>)
    ensures |r| <= |ts|
  {
    if ts == [] then []
    else Pruned(ts[..|ts| - 1]) + (if Survives(ts[|ts| - 1]) then [ts[|ts| - 1]] else [])
  }

  /** The sum of the chances of a list. */
  function Total(ts: seq<TargetTeleporter>): (r: real) {
    if ts == [] then 0.0 else Total(ts[..|ts| - 1]) + ts[|ts| - 1].chance
  }

  /**
   * The walk of the second loop, from position `i` with what is left of the
   * draw: the first position whose chance exceeds what is left, if any.
   */
  function ScanFrom(ts: seq<TargetTeleporter>, i: nat, point: real): (r: Option<nat>)
    requires i <= |ts|
    ensures r.Some? ==> i <= r.value < |ts|
    decreases |ts| - i
  {
    if i == |ts| then None
    else if point < ts[i].chance then Some(i)
    else ScanFrom(ts, i + 1, point - ts[i].chance)
  }

  /** The draw scaled to the total chance, `Random.value * total`. */
  function RandomPoint(value: real, total: real): (r: real) {
    value * total
  }

  /**
   * The id picked from a pruned list for the draw `value`: the sentinel -1
   * when the list is empty, otherwise the id the walk stops at, or the last
   * entry's id when the walk runs out.
   */
  function Pick(kept: seq<TargetTeleporter>, value: real): (r: int) {
    if kept == [] then -1
    else match ScanFrom(kept, 0, RandomPoint(value, Total(kept)))
      case Some(i) => kept[i].id
      case None => kept[|kept| - 1].id
  }

  /**
   * What `Choose(ts)` returns for the draw `value`: an exception on an empty
   * list (it indexes position -1), otherwise the pick from the pruned list.
   */
  function Chosen(ts: seq<TargetTeleporter>, value: real): (r: Result<int>) {
    if ts == [] then Err(ArgumentOutOfRange) else Ok(Pick(Pruned(ts), value))
  }

  /**
   * `Choose`: prunes the list (the caller keeps `kept` as its new list) and
   * picks an id.
   */
  method Choose(teleports: seq<TargetTeleporter>, value: real) returns (kept: seq<TargetTeleporter>, chosen: Result<int>)
    ensures kept == Pruned(teleports)
    ensures chosen == Chosen(teleports, value)
  {
    var snapshot := teleports;  // teleports.ToList()
    kept := teleports;
    var total := 0.0;
    var at := 0;  // position of snapshot[i] in kept
    var i := 0;
    while i < |snapshot|
      invariant 0 <= i <= |snapshot|
      invariant at == |Pruned(snapshot[..i])|
      invariant kept == Pruned(snapshot[..i]) + snapshot[i..]
      invariant snapshot != [] ==> kept != []
      invariant total == Total(Pruned(snapshot[..i]))
    {
      var elem := snapshot[i];
      PruneLoopStep(snapshot, i, kept);
      if elem.chance <= 0.0 {
        kept := kept[..at] + kept[at + 1..];
        if |kept| == 0 {
          assert snapshot[..i + 1] == snapshot;
          chosen := Ok(-1);
          return;
        }
      } else {
        total := total + elem.chance;
        at := at + 1;
      }
      i := i + 1;
    }
    assert snapshot[..i] == snapshot;
    assert kept == Pruned(teleports) && total == Total(kept);
    var randomPoint := RandomPoint(value, total);
    var j := 0;
    while j < |kept|
      invariant 0 <= j <= |kept|
      invariant ScanFrom(kept, 0, RandomPoint(value, total)) == ScanFrom(kept, j, randomPoint)
    {
      if randomPoint < kept[j].chance {
        assert ScanFrom(kept, j, randomPoint) == Some(j);
        chosen := Ok(kept[j].id);
        return;
      }
      randomPoint := randomPoint - kept[j].chance;
      j := j + 1;
    }
    assert ScanFrom(kept, j, randomPoint) == None;
    if |kept| == 0 {
      chosen := Err(ArgumentOutOfRange);
    } else {
      chosen := Ok(kept[|kept| - 1].id);
    }
  }

  /** One step of the pruning loop: the prefix grows by one entry. */
  lemma PrunedStep(ts: seq<TargetTeleporter>, i: nat)
    requires i < |ts|
    ensures Pruned(ts[..i + 1]) == Pruned(ts[..i]) + (if Survives(ts[i]) then [ts[i]] else [])
    ensures !Survives(ts[i]) ==> Pruned(ts[..i + 1]) == Pruned(ts[..i])
    ensures Survives(ts[i]) ==> Total(Pruned(ts[..i + 1])) == Total(Pruned(ts[..i])) + ts[i].chance
  {
    assert ts[..i + 1][..i] == ts[..i];
    if Survives(ts[i]) {
      var p := Pruned(ts[..i]) + [ts[i]];
      assert p[..|p| - 1] == Pruned(ts[..i]);
    }
  }

  /**
   * One turn of the pruning loop: removing the current entry from the live
   * list, or keeping it, leaves the pruned prefix followed by the rest.
   */
  lemma PruneLoopStep(ts: seq<TargetTeleporter>, i: nat, kept: seq<TargetTeleporter>)
    requires i < |ts|
    requires kept == Pruned(ts[..i]) + ts[i..]
    ensures !Survives(ts[i]) ==>
      var at := |Pruned(ts[..i])|;
      kept[..at] + kept[at + 1..] == Pruned(ts[..i + 1]) + ts[i + 1..]
    ensures Survives(ts[i]) ==>
      kept == Pruned(ts[..i + 1]) + ts[i + 1..] && |Pruned(ts[..i + 1])| == |Pruned(ts[..i])| + 1
    ensures Survives(ts[i]) ==> Total(Pruned(ts[..i + 1])) == Total(Pruned(ts[..i])) + ts[i].chance
    ensures !Survives(ts[i]) ==> Total(Pruned(ts[..i + 1])) == Total(Pruned(ts[..i]))
  {
    PrunedStep(ts, i);
    var at := |Pruned(ts[..i])|;
    assert kept[..at] == Pruned(ts[..i]) && kept[at + 1..] == ts[i + 1..];
  }

  /** Pruning keeps exactly the entries with a positive chance. */
  lemma {:induction false} PrunedMembers(ts: seq<TargetTeleporter>)
    ensures forall t :: t in Pruned(ts) <==> t in ts && Survives(t)
  {
    if ts != [] {
      var init := ts[..|ts| - 1];
      PrunedMembers(init);
      assert ts == init + [ts[|ts| - 1]];
    }
  }

  /** Pruning works entry by entry, so the survivors keep their order. */
  lemma {:induction false} PrunedAppend(a: seq<TargetTeleporter>, b: seq<TargetTeleporter>)
    ensures Pruned(a + b) == Pruned(a) + Pruned(b)
    decreases |b|
  {
    if b == [] {
      assert a + b == a;
    } else {
      var init, last := b[..|b| - 1], b[|b| - 1];
      var tail := if Survives(last) then [last] else [];
      PrunedAppend(a, init);
      assert (a + b)[..|a + b| - 1] == a + init;
      assert (a + b)[|a + b| - 1] == last;
      calc {
        Pruned(a + b);
        Pruned(a + init) + tail;
        Pruned(a) + Pruned(init) + tail;
        Pruned(a) + (Pruned(init) + tail);
        Pruned(a) + Pruned(b);
      }
    }
  }

  /** Pruning is permanent: a list that was pruned once loses nothing more. */
  lemma {:induction false} PrunedTwice(ts: seq<TargetTeleporter>)
    ensures Pruned(Pruned(ts)) == Pruned(ts)
  {
    if ts != [] {
      var init := ts[..|ts| - 1];
      var last := ts[|ts| - 1];
      PrunedTwice(init);
      PrunedAppend(Pruned(init), if Survives(last) then [last] else []);
      if Survives(last) {
        assert Pruned([last]) == Pruned([]) + [last];
      }
    }
  }

  /** Every survivor of pruning has a positive chance. */
  lemma {:induction false} PrunedPositive(ts: seq<TargetTeleporter>)
    ensures forall k :: 0 <= k < |Pruned(ts)| ==> Survives(Pruned(ts)[k])
  {
    if ts != [] {
      PrunedPositive(ts[..|ts| - 1]);
    }
  }

  /** Scaling a positive total by a draw in [0, 1] reaches the total only for the draw 1. */
  lemma ScaledBelowTotal(value: real, total: real)
    requires 0.0 <= value <= 1.0
    requires total > 0.0
    ensures 0.0 <= RandomPoint(value, total)
    ensures RandomPoint(value, total) >= total <==> value == 1.0
  {
    if value < 1.0 {
      assert total - value * total == (1.0 - value) * total;
    }
  }

  /** The total chance of a list with its first entry split off. */
  lemma {:induction false} TotalCons(t: TargetTeleporter, s: seq<TargetTeleporter>)
    ensures Total([t] + s) == t.chance + Total(s)
    decreases |s|
  {
    if s == [] {
      assert [t] + s == [t];
      assert [t][..0] == [];
    } else {
      var init := s[..|s| - 1];
      TotalCons(t, init);
      assert ([t] + s)[..|[t] + s| - 1] == [t] + init;
    }
  }

  /** With positive chances the total of a non-empty list is positive. */
  lemma {:induction false} TotalPositive(ts: seq<TargetTeleporter>)
    requires forall k :: 0 <= k < |ts| ==> Survives(ts[k])
    ensures ts != [] ==> Total(ts) > 0.0
    ensures Total(ts) >= 0.0
  {
    if ts != [] {
      TotalPositive(ts[..|ts| - 1]);
    }
  }

  /**
   * With positive chances and a non-negative draw, the walk from `j` stops
   * at position `i` exactly when the draw lies in the interval of `i`: the
   * chances before `i` add up to at most the draw, and adding `i`'s chance
   * exceeds it. The interval is `ts[i].chance` wide, which makes the
   * probability of `i` its share of the total.
   */
  lemma {:induction false} ScanInterval(ts: seq<TargetTeleporter>, j: nat, point: real, i: nat)
    requires forall k :: 0 <= k < |ts| ==> Survives(ts[k])
    requires j <= i < |ts|
    requires point >= 0.0
    ensures ScanFrom(ts, j, point) == Some(i) <==> Total(ts[j..i]) <= point < Total(ts[j..i + 1])
    decreases i - j
  {
    assert ts[j..j + 1] == [ts[j]] + ts[j + 1..j + 1];
    TotalCons(ts[j], ts[j + 1..j + 1]);
    if i == j {
      assert ts[j..i] == [];
    } else {
      assert ts[j..i] == [ts[j]] + ts[j + 1..i];
      assert ts[j..i + 1] == [ts[j]] + ts[j + 1..i + 1];
      TotalCons(ts[j], ts[j + 1..i]);
      TotalCons(ts[j], ts[j + 1..i + 1]);
      TotalPositive(ts[j + 1..i]);
      if point >= ts[j].chance {
        ScanInterval(ts, j + 1, point - ts[j].chance, i);
      }
    }
  }

  /**
   * With positive chances and a non-negative draw, the walk from `j` runs
   * out exactly when the draw is at least the total from `j` on.
   */
  lemma {:induction false} ScanRunsOut(ts: seq<TargetTeleporter>, j: nat, point: real)
    requires forall k :: 0 <= k < |ts| ==> Survives(ts[k])
    requires j <= |ts|
    requires point >= 0.0
    ensures ScanFrom(ts, j, point) == None <==> point >= Total(ts[j..])
    decreases |ts| - j
  {
    if j == |ts| {
      assert ts[j..] == [];
    } else {
      assert ts[j..] == [ts[j]] + ts[j + 1..];
      TotalCons(ts[j], ts[j + 1..]);
      TotalPositive(ts[j + 1..]);
      if point >= ts[j].chance {
        ScanRunsOut(ts, j + 1, point - ts[j].chance);
      }
    }
  }

  /**
   * The sentinel -1 comes back when pruning empties a non-empty list;
   * otherwise the result is the id of a survivor. An empty list throws.
   */
  lemma ChosenSurvivor(ts: seq<TargetTeleporter>, value: real)
    ensures ts == [] <==> Chosen(ts, value).Err?
    ensures ts != [] && Pruned(ts) == [] ==> Chosen(ts, value) == Ok(-1)
    ensures Pruned(ts) != [] ==>
      Chosen(ts, value).Ok? && exists t :: t in Pruned(ts) && t.id == Chosen(ts, value).value
  {
    var kept := Pruned(ts);
    if kept != [] {
      assert ts != [];
      match ScanFrom(kept, 0, RandomPoint(value, Total(kept)))
      case Some(i) => assert kept[i] in kept;
      case None => assert kept[|kept| - 1] in kept;
    }
  }

  /**
   * When no survivor carries the id -1, the sentinel comes back exactly
   * when pruning empties the list.
   */
  lemma SentinelIffEmptied(ts: seq<TargetTeleporter>, value: real)
    requires ts != []
    requires forall t :: t in ts && Survives(t) ==> t.id != -1
    ensures Chosen(ts, value) == Ok(-1) <==> Pruned(ts) == []
  {
    ChosenSurvivor(ts, value);
    PrunedMembers(ts);
  }

  /**
   * For a draw in [0, 1) the result is the id of the first survivor whose
   * cumulative chance exceeds the scaled draw.
   */
  lemma ChosenByCumulativeChance(ts: seq<TargetTeleporter>, value: real, i: nat)
    requires 0.0 <= value < 1.0
    requires i < |Pruned(ts)|
    requires Total(Pruned(ts)[..i]) <= RandomPoint(value, Total(Pruned(ts))) < Total(Pruned(ts)[..i + 1])
    ensures Chosen(ts, value) == Ok(Pruned(ts)[i].id)
  {
    var kept := Pruned(ts);
    PrunedPositive(ts);
    TotalPositive(kept);
    ScaledBelowTotal(value, Total(kept));
    assert kept[0..i] == kept[..i] && kept[0..i + 1] == kept[..i + 1];
    ScanInterval(kept, 0, RandomPoint(value, Total(kept)), i);
    assert ts != [];
  }

  /**
   * The walk finds a survivor for every draw below 1; only the draw 1 itself
   * runs it out, and then the last survivor is returned.
   */
  lemma ChosenFallback(ts: seq<TargetTeleporter>, value: real)
    requires Pruned(ts) != []
    requires 0.0 <= value <= 1.0
    ensures ScanFrom(Pruned(ts), 0, RandomPoint(value, Total(Pruned(ts)))) == None <==> value == 1.0
    ensures value == 1.0 ==> Chosen(ts, value) == Ok(Pruned(ts)[|Pruned(ts)| - 1].id)
  {
    var kept := Pruned(ts);
    PrunedPositive(ts);
    TotalPositive(kept);
    ScaledBelowTotal(value, Total(kept));
    assert kept[0..] == kept;
    ScanRunsOut(kept, 0, RandomPoint(value, Total(kept)));
    assert ts != [];
  }
}
