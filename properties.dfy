/** What the puzzle-interaction core guarantees: one collision check, runs of
    key presses and frames, the alert sequence the code produces, and the
    movement keys. */
module GameProperties {
  import opened Game

  // ---------------------------------------------------------------------
  // Proximity

  /** The source compares the Euclidean distance (a non-negative square
      root) with 1.5; for every such root the squared test agrees. */
  lemma DistanceTest(p: Vec3, m: Vec3, d: real)
    requires d >= 0.0 && d * d == DistSq(p, m)
    ensures d < Threshold <==> Near(p, m)
  {
    if d < Threshold {
      assert d * d <= d * Threshold;
      assert d * Threshold < Threshold * Threshold;
    } else {
      assert d * d >= d * Threshold;
      assert d * Threshold >= Threshold * Threshold;
    }
  }

  /** With the player at its fixed height and a marker on the ground, the
      test only depends on the horizontal offset. */
  lemma NearOnGround(p: Vec3, m: Vec3)
    requires p.y == PlayerY && m.y == MarkerY
    ensures Near(p, m) <==> (p.x - m.x) * (p.x - m.x) + (p.z - m.z) * (p.z - m.z) < 1.25
  {
  }

  // ---------------------------------------------------------------------
  // One collision check

  /** A check changes nothing (and shows nothing) exactly when no marker is
      near; in particular it is a no-op once every marker is gone. */
  lemma StepNoMatchIsNoOp(w: World)
    ensures (forall j :: 0 <= j < |w.puzzles| ==> !Near(w.player, w.puzzles[j]))
        <==> Step(w) == (Quiet, w)
  {
  }

  /** The marker resolved is the first near one in array order: it alone is
      removed, the others keep their order, the counter rises by one and the
      alert is chosen against the length before removal. */
  lemma StepResolvesFirstNear(w: World, i: nat)
    requires i < |w.puzzles| && Near(w.player, w.puzzles[i])
    requires forall j :: 0 <= j < i ==> !Near(w.player, w.puzzles[j])
    ensures Step(w).1 == w.(puzzles := Remove(w.puzzles, i), solved := w.solved + 1)
    ensures Step(w).0 == if w.solved + 1 == |w.puzzles| then AllSolved else Solved(i + 1)
  {
    assert FirstNear(w.player, w.puzzles) == Some(i);
  }

  /** A check removes at most one marker, moves it into the counter, never
      moves the player and never adds a marker; it shows an alert exactly
      when it solved one. */
  lemma StepConserves(w: World)
    ensures Step(w).1.solved + |Step(w).1.puzzles| == w.solved + |w.puzzles|
    ensures Step(w).1.solved == w.solved || Step(w).1.solved == w.solved + 1
    ensures Step(w).1.player == w.player
    ensures multiset(Step(w).1.puzzles) <= multiset(w.puzzles)
    ensures Step(w).0 == Quiet <==> Step(w).1.solved == w.solved
  {
  }

  /** With `total` markers created, a check shows "all solved" exactly when
      it resolves a marker and the counter before it is (total - 1) / 2:
      the test compares against the shrinking array, not against total. */
  lemma AllSolvedOnlyWhen(w: World, total: nat)
    requires w.solved + |w.puzzles| == total
    ensures Step(w).0 == AllSolved
        <==> FirstNear(w.player, w.puzzles).Some? && 2 * w.solved + 1 == total
  {
  }

  /** Solving the last remaining marker after others were solved shows the
      per-marker alert "Puzzle 1 solved", not "all solved". */
  lemma LastMarkerNotAllSolved(w: World)
    requires |w.puzzles| == 1 && w.solved >= 1 && Near(w.player, w.puzzles[0])
    ensures Step(w).0 == Solved(1)
    ensures Step(w).1.puzzles == [] && Step(w).1.solved == w.solved + 1
  {
    StepResolvesFirstNear(w, 0);
  }

  /** A check with the player near the first marker in the array resolves
      that marker, whatever else is near. */
  lemma StepAtFront(w: World)
    requires |w.puzzles| > 0 && Near(w.player, w.puzzles[0])
    ensures Step(w).1 == w.(puzzles := w.puzzles[1..], solved := w.solved + 1)
    ensures Step(w).0 == if w.solved + 1 == |w.puzzles| then AllSolved else Solved(1)
  {
    StepResolvesFirstNear(w, 0);
    assert Remove(w.puzzles, 0) == w.puzzles[1..];
  }

  /** Standing on each marker in turn from the initial state gives the
      alerts Solved(1), AllSolved, Solved(1), and leaves three solved. */
  lemma ThreeSolvesFromInitial()
    ensures var m0, m1, m2 := Initial().puzzles[0], Initial().puzzles[1], Initial().puzzles[2];
      var p1, p2, p3 := Vec3(-2.0, PlayerY, -15.0), Vec3(2.0, PlayerY, -30.0), Vec3(0.0, PlayerY, -45.0);
      && Step(Initial().(player := p1)) == (Solved(1), World([m1, m2], 1, p1))
      && Step(World([m1, m2], 1, p2)) == (AllSolved, World([m2], 2, p2))
      && Step(World([m2], 2, p3)) == (Solved(1), World([], 3, p3))
  {
    var m0, m1, m2 := Initial().puzzles[0], Initial().puzzles[1], Initial().puzzles[2];
    var p1, p2, p3 := Vec3(-2.0, PlayerY, -15.0), Vec3(2.0, PlayerY, -30.0), Vec3(0.0, PlayerY, -45.0);
    assert DistSq(p1, m0) == 1.0;
    StepAtFront(Initial().(player := p1));
    assert Initial().puzzles[1..] == [m1, m2];
    assert DistSq(p2, m1) == 1.0;
    StepAtFront(World([m1, m2], 1, p2));
    assert [m1, m2][1..] == [m2];
    assert DistSq(p3, m2) == 1.0;
    StepAtFront(World([m2], 2, p3));
  }

  // ---------------------------------------------------------------------
  // Runs of events

  /** Running two event lists one after the other is running their
      concatenation. */
  lemma {:induction false} RunAppend(w: World, a: seq<Event>, b: seq<Event>)
    ensures Run(w, a + b) == (Run(w, a).0 + Run(Run(w, a).1, b).0, Run(Run(w, a).1, b).1)
    decreases |a|
  {
    if a == [] {
      assert a + b == b;
      assert Run(w, a) == ([], w);
      assert [] + Run(w, b).0 == Run(w, b).0;
    } else {
      var rest := a[1..];
      assert (a + b)[0] == a[0] && (a + b)[1..] == rest + b;
      match a[0]
      case KeyDown(key) =>
        RunAppend(w.(player := Moved(w.player, key)), rest, b);
      case Frame =>
        var (m, next) := Step(w);
        RunAppend(next, rest, b);
        var x, y := Run(next, rest).0, Run(Run(next, rest).1, b).0;
        assert Run(w, a).1 == Run(next, rest).1;
        if m != Quiet {
          assert ([m] + x) + y == [m] + (x + y);
        }
    }
  }

  /** Over any run, every created marker stays either active or counted, the
      counter never decreases, one alert is shown per solved marker, the
      player stays at its height and no marker is added. */
  lemma {:induction false} RunConserves(w: World, events: seq<Event>)
    ensures Run(w, events).1.solved + |Run(w, events).1.puzzles| == w.solved + |w.puzzles|
    ensures Run(w, events).1.solved >= w.solved
    ensures |Run(w, events).0| == Run(w, events).1.solved - w.solved
    ensures Run(w, events).1.player.y == w.player.y
    ensures multiset(Run(w, events).1.puzzles) <= multiset(w.puzzles)
    decreases |events|
  {
    if events != [] {
      match events[0]
      case KeyDown(key) =>
        RunConserves(w.(player := Moved(w.player, key)), events[1..]);
      case Frame =>
        StepConserves(w);
        RunConserves(Step(w).1, events[1..]);
    }
  }

  /** The k-th alert of a run (counting from 0) is the one shown by the
      (w.solved + k + 1)-th solve: "all solved" exactly when
      2 * (w.solved + k) + 1 == total, otherwise a number between 1 and the
      markers left at that point. */
  lemma {:induction false} RunAlerts(w: World, events: seq<Event>, total: nat)
    requires w.solved + |w.puzzles| == total
    ensures forall k :: 0 <= k < |Run(w, events).0| ==>
      var m := Run(w, events).0[k];
      m != Quiet
      && (m == AllSolved <==> 2 * (w.solved + k) + 1 == total)
      && (m.Solved? ==> 1 <= m.number && w.solved + k + m.number <= total)
    decreases |events|
  {
    if events != [] {
      match events[0]
      case KeyDown(key) =>
        RunAlerts(w.(player := Moved(w.player, key)), events[1..], total);
      case Frame =>
        StepConserves(w);
        RunAlerts(Step(w).1, events[1..], total);
    }
  }

  /** Whatever the player does from the initial state: at most three solves,
      the counter never exceeds three, and the alerts are some "Puzzle n
      solved" first, then "all solved" on the SECOND solve, then "Puzzle 1
      solved" on the third. Player and markers keep their heights. */
  lemma InitialRun(events: seq<Event>)
    ensures var (alerts, w) := Run(Initial(), events);
      w.solved <= 3 && |alerts| == w.solved
      && (|alerts| > 0 ==> alerts[0].Solved? && 1 <= alerts[0].number <= 3)
      && (|alerts| > 1 ==> alerts[1] == AllSolved)
      && (|alerts| > 2 ==> alerts[2] == Solved(1))
      && w.player.y == PlayerY
      && forall k :: 0 <= k < |w.puzzles| ==> w.puzzles[k].y == MarkerY
  {
    var (alerts, w) := Run(Initial(), events);
    RunConserves(Initial(), events);
    RunAlerts(Initial(), events, 3);
    if |alerts| > 0 { assert alerts[0] != AllSolved; }
    if |alerts| > 2 { assert alerts[2] != AllSolved; }
    forall k | 0 <= k < |w.puzzles|
      ensures w.puzzles[k].y == MarkerY
    {
      assert w.puzzles[k] in multiset(w.puzzles);
      assert w.puzzles[k] in Initial().puzzles;
    }
  }

  /** Once every marker is gone, frames do nothing: a run shows no alert and
      only moves the player. */
  lemma {:induction false} RunWhenAllGone(w: World, events: seq<Event>)
    requires w.puzzles == []
    ensures Run(w, events).0 == []
    ensures Run(w, events).1 == w.(player := Run(w, events).1.player)
    decreases |events|
  {
    if events != [] {
      match events[0]
      case KeyDown(key) =>
        RunWhenAllGone(w.(player := Moved(w.player, key)), events[1..]);
      case Frame =>
        StepNoMatchIsNoOp(w);
        RunWhenAllGone(w, events[1..]);
    }
  }

  // ---------------------------------------------------------------------
  // Movement keys

  /** Position after pressing the given keys in order (no frame between). */
  function Walk(p: Vec3, keys: seq<string>): Vec3
    decreases |keys|
  {
    if keys == [] then p else Walk(Moved(p, keys[0]), keys[1..])
  }

  /** Number of keys that lower-case to `k`. */
  function Count(keys: seq<string>, k: string): nat
    decreases |keys|
  {
    if keys == [] then 0 else (if Lower(keys[0]) == k then 1 else 0) + Count(keys[1..], k)
  }

  /** The key presses as events. */
  function Presses(keys: seq<string>): (es: seq<Event>)
    ensures |es| == |keys|
    ensures forall i :: 0 <= i < |keys| ==> es[i] == KeyDown(keys[i])
  {
    seq(|keys|, i requires 0 <= i < |keys| => KeyDown(keys[i]))
  }

  /** `n` presses of the same key. */
  function Repeat(key: string, n: nat): (r: seq<string>)
    ensures |r| == n
    ensures forall i :: 0 <= i < n ==> r[i] == key
  {
    seq(n, _ => key)
  }

  /** Lower-casing twice is lower-casing once. */
  lemma LowerIdempotent(s: string)
    ensures Lower(Lower(s)) == Lower(s)
  {
  }

  /** Keys are matched case-insensitively: "W" moves like "w". */
  lemma MovedIgnoresCase(p: Vec3, key: string)
    ensures Moved(p, Lower(key)) == Moved(p, key)
  {
    LowerIdempotent(key);
  }

  /** A key press never changes the height, and either leaves the position
      alone or moves it by exactly Speed along x or z. */
  lemma MovedStaysOnPlane(p: Vec3, key: string)
    ensures Moved(p, key).y == p.y
    ensures Moved(p, key) in {p, p.(z := p.z - Speed), p.(z := p.z + Speed),
                              p.(x := p.x - Speed), p.(x := p.x + Speed)}
    ensures Moved(p, key) == p <==> Lower(key) !in {"w", "s", "a", "d"}
  {
  }

  /** "s" undoes "w" and "d" undoes "a", in either order. */
  lemma MovedUndo(p: Vec3)
    ensures Moved(Moved(p, "w"), "s") == p && Moved(Moved(p, "s"), "w") == p
    ensures Moved(Moved(p, "a"), "d") == p && Moved(Moved(p, "d"), "a") == p
  {
  }

  /** The position after a walk depends only on how often each movement key
      was pressed, whatever the order and case. */
  lemma {:induction false} WalkDisplacement(p: Vec3, keys: seq<string>)
    ensures Walk(p, keys) == Vec3(p.x + Speed * (Count(keys, "d") - Count(keys, "a")) as real,
                                  p.y,
                                  p.z + Speed * (Count(keys, "s") - Count(keys, "w")) as real)
    decreases |keys|
  {
    if keys != [] {
      WalkDisplacement(Moved(p, keys[0]), keys[1..]);
    }
  }

  /** Counting over a concatenation adds up. */
  lemma {:induction false} CountAppend(a: seq<string>, b: seq<string>, k: string)
    ensures Count(a + b, k) == Count(a, k) + Count(b, k)
    decreases |a|
  {
    if a != [] {
      assert (a + b)[1..] == a[1..] + b;
      CountAppend(a[1..], b, k);
    } else {
      assert a + b == b;
    }
  }

  /** Counting n presses of one key. */
  lemma {:induction false} CountRepeat(key: string, n: nat, k: string)
    ensures Count(Repeat(key, n), k) == if Lower(key) == k then n else 0
    decreases n
  {
    if n > 0 {
      assert Repeat(key, n)[1..] == Repeat(key, n - 1);
      CountRepeat(key, n - 1, k);
    }
  }

  /** Key presses alone never show an alert and only move the player. */
  lemma {:induction false} RunPresses(w: World, keys: seq<string>)
    ensures Run(w, Presses(keys)) == ([], w.(player := Walk(w.player, keys)))
    decreases |keys|
  {
    if keys != [] {
      assert Presses(keys)[1..] == Presses(keys[1..]);
      RunPresses(w.(player := Moved(w.player, keys[0])), keys[1..]);
    }
  }

  /** Seven presses of "a" then seventy-three of "w" take the player from
      (0, 1.5, 8) to (-2.1, 1.5, -13.9). */
  lemma WalkFromStart()
    ensures Walk(Initial().player, Repeat("a", 7) + Repeat("w", 73)) == Vec3(-2.1, PlayerY, -13.9)
  {
    var a, w := Repeat("a", 7), Repeat("w", 73);
    CountAppend(a, w, "a");
    CountAppend(a, w, "w");
    CountAppend(a, w, "s");
    CountAppend(a, w, "d");
    CountRepeat("a", 7, "a");
    CountRepeat("w", 73, "a");
    CountRepeat("a", 7, "w");
    CountRepeat("w", 73, "w");
    CountRepeat("a", 7, "s");
    CountRepeat("w", 73, "s");
    CountRepeat("a", 7, "d");
    CountRepeat("w", 73, "d");
    WalkDisplacement(Initial().player, a + w);
  }

  /** From the start, walking to (-2.1, 1.5, -13.9) and then one frame
      solves the first marker and shows "Puzzle 1 solved". */
  lemma WalkToFirstMarker()
    ensures var events := Presses(Repeat("a", 7) + Repeat("w", 73)) + [Frame];
      Run(Initial(), events) == ([Solved(1)], World(Initial().puzzles[1..], 1, Vec3(-2.1, PlayerY, -13.9)))
  {
    var keys := Repeat("a", 7) + Repeat("w", 73);
    var here := Initial().(player := Vec3(-2.1, PlayerY, -13.9));
    WalkFromStart();
    RunPresses(Initial(), keys);
    RunAppend(Initial(), Presses(keys), [Frame]);
    assert DistSq(here.player, here.puzzles[0]) == 2.22;
    StepAtFront(here);
    var after := World(Initial().puzzles[1..], 1, here.player);
    assert Step(here) == (Solved(1), after);
    assert [Frame][0] == Frame && [Frame][1..] == [];
    assert [Solved(1)] + [] == [Solved(1)];
    assert Run(after, []) == ([], after);
    assert Run(here, [Frame]) == ([Solved(1)], after);
    assert Run(Initial(), Presses(keys)) == ([], here);
    assert [] + [Solved(1)] == [Solved(1)];
    assert Run(Initial(), Presses(keys) + [Frame]) == ([Solved(1)], after);
  }
}
