/** The puzzle-interaction core of the corridor demo (game.js).
    A session holds the player's position, the list of puzzle markers that
    are still active and a counter of solved markers. Every animation frame
    runs one collision check; every key press moves the player. Positions are
    exact reals (the source uses IEEE doubles). */
module Game {

  datatype Option<T> = None | Some(value: T)

  /** A position in the scene (a three.js Vector3). */
  datatype Vec3 = Vec3(x: real, y: real, z: real)

  /** What one collision check shows the user: nothing, the
      "You solved all puzzles!" alert, or "Puzzle <number> solved!". */
  datatype Message = Quiet | AllSolved | Solved(number: nat)

  /** Distance the player moves per key press. */
  const Speed: real := 0.3
  /** A marker is reached when the player is closer than this. */
  const Threshold: real := 1.5
  /** Every marker cube is placed with its centre at this height. */
  const MarkerY: real := 0.5
  /** The player's height, set once at start-up and never changed. */
  const PlayerY: real := 1.5

  /** Squared Euclidean distance between two points. */
  function DistSq(a: Vec3, b: Vec3): (d: real)
    ensures d >= 0.0
    ensures d >= (a.x - b.x) * (a.x - b.x) && d >= (a.z - b.z) * (a.z - b.z)
  {
    var dx, dy, dz := a.x - b.x, a.y - b.y, a.z - b.z;
    assert dx * dx >= 0.0 && dy * dy >= 0.0 && dz * dz >= 0.0;
    dx * dx + dy * dy + dz * dz
  }

  /** The proximity test of the collision check: distance below Threshold,
      stated on squares so that no square root is needed. */
  predicate Near(p: Vec3, m: Vec3): (near: bool)
    ensures p == m ==> near
    ensures near ==> -Threshold < p.x - m.x < Threshold && -Threshold < p.z - m.z < Threshold
  {
    var dx, dz := p.x - m.x, p.z - m.z;
    assert dx >= Threshold ==> dx * dx >= Threshold * Threshold;
    assert dx <= -Threshold ==> dx * dx >= Threshold * Threshold;
    assert dz >= Threshold ==> dz * dz >= Threshold * Threshold;
    assert dz <= -Threshold ==> dz * dz >= Threshold * Threshold;
    DistSq(p, m) < Threshold * Threshold
  }

  /** The array after `splice(i, 1)`: element i is gone, the others keep
      their order. */
  function Remove<T>(s: seq<T>, i: nat): (r: seq<T>)
    requires i < |s|
    ensures |r| == |s| - 1
    ensures forall k :: 0 <= k < |r| ==> r[k] == if k < i then s[k] else s[k + 1]
    ensures multiset(r) + multiset{s[i]} == multiset(s)
  {
    assert s == s[..i] + [s[i]] + s[i + 1..];
    s[..i] + s[i + 1..]
  }

  /** The index at which an in-order scan of the markers first finds one
      near the player, if any. */
  function FirstNear(p: Vec3, ms: seq<Vec3>): (r: Option<nat>)
    ensures r.None? <==> forall j :: 0 <= j < |ms| ==> !Near(p, ms[j])
    ensures r.Some? ==> r.value < |ms| && Near(p, ms[r.value])
    ensures r.Some? ==> forall j :: 0 <= j < r.value ==> !Near(p, ms[j])
    decreases |ms|
  {
    if ms == [] then None
    else if Near(p, ms[0]) then Some(0)
    else match FirstNear(p, ms[1..])
      case None => None
      case Some(k) => Some(k + 1)
  }

  /** The alert chosen after the counter was incremented: "all solved" when
      the counter equals the number of markers still in the array (before the
      solved one is removed), otherwise the marker's current index plus one. */
  function Announce(solvedNow: nat, remaining: nat, index: nat): (m: Message)
    ensures m != Quiet
    ensures m == AllSolved <==> solvedNow == remaining
    ensures m.Solved? ==> m.number == index + 1
  {
    if solvedNow == remaining then AllSolved else Solved(index + 1)
  }

  /** The session state as a value. */
  datatype World = World(puzzles: seq<Vec3>, solved: nat, player: Vec3)

  /** The state right after start-up: the player at (0, 1.5, 8) and the three
      markers created in order. */
  function Initial(): (w: World)
    ensures |w.puzzles| == 3 && w.solved == 0
    ensures w.player.y == PlayerY
    ensures forall k :: 0 <= k < |w.puzzles| ==> w.puzzles[k].y == MarkerY
  {
    World([Vec3(-2.0, MarkerY, -15.0), Vec3(2.0, MarkerY, -30.0), Vec3(0.0, MarkerY, -45.0)],
          0, Vec3(0.0, PlayerY, 8.0))
  }

  /** One collision check on a value state: the message shown and the state
      afterwards. */
  function Step(w: World): (r: (Message, World))
    ensures r.1.player == w.player
    ensures r.1.solved + |r.1.puzzles| == w.solved + |w.puzzles|
    ensures r.0 == Quiet <==> r.1 == w
    ensures r.0 == Quiet <==> FirstNear(w.player, w.puzzles).None?
  {
    match FirstNear(w.player, w.puzzles)
    case None => (Quiet, w)
    case Some(i) =>
      (Announce(w.solved + 1, |w.puzzles|, i),
       w.(puzzles := Remove(w.puzzles, i), solved := w.solved + 1))
  }

  /** ASCII lower-casing of one character. */
  function LowerChar(c: char): (r: char)
    ensures 'A' <= c <= 'Z' ==> 'a' <= r <= 'z'
    ensures !('A' <= c <= 'Z') ==> r == c
  {
    if 'A' <= c <= 'Z' then (c as int - 'A' as int + 'a' as int) as char else c
  }

  /** `String.prototype.toLowerCase`, restricted to ASCII letters. */
  function Lower(s: string): (r: string)
    ensures |r| == |s|
    ensures forall k :: 0 <= k < |s| ==> r[k] == LowerChar(s[k])
  {
    if s == [] then [] else [LowerChar(s[0])] + Lower(s[1..])
  }

  /** The player's position after a key-down event with the given key. */
  function Moved(p: Vec3, key: string): (q: Vec3)
    ensures q.y == p.y
    ensures q.x == p.x || q.z == p.z
    ensures Lower(key) !in {"w", "s", "a", "d"} ==> q == p
  {
    var k := Lower(key);
    if k == "w" then p.(z := p.z - Speed)
    else if k == "s" then p.(z := p.z + Speed)
    else if k == "a" then p.(x := p.x - Speed)
    else if k == "d" then p.(x := p.x + Speed)
    else p
  }

  /** The events the page reacts to: a key going down, or an animation frame
      (which runs one collision check). */
  datatype Event = KeyDown(key: string) | Frame

  /** A run of events from a state: the alerts shown, in order, and the
      final state. */
  function Run(w: World, events: seq<Event>): (r: (seq<Message>, World))
    ensures |r.0| <= |events|
    ensures forall k :: 0 <= k < |r.0| ==> r.0[k] != Quiet
    decreases |events|
  {
    if events == [] then ([], w)
    else
      match events[0]
      case KeyDown(key) => Run(w.(player := Moved(w.player, key)), events[1..])
      case Frame =>
        var (m, next) := Step(w);
        var rest := Run(next, events[1..]);
        (if m == Quiet then rest.0 else [m] + rest.0, rest.1)
  }

  /** The module-level game state of game.js: the `puzzles` array, the
      `solved` counter and the player's position. */
  class Session {
    var puzzles: seq<Vec3>
    var solved: nat
    var player: Vec3
    /** How many markers have been created so far. */
    ghost var created: nat

    /** Every created marker is either still active or counted as solved. */
    ghost predicate Valid()
      reads this
    {
      solved + |puzzles| == created
    }

    function State(): World
      reads this
    {
      World(puzzles, solved, player)
    }

    /** Start-up: the empty array and zero counter, the player placed at
        (0, 1.5, 8), then the three markers. */
    constructor ()
      ensures Valid() && created == 3
      ensures State() == Initial()
    {
      puzzles := [];
      solved := 0;
      created := 0;
      player := Vec3(0.0, PlayerY, 8.0);
      new;
      CreatePuzzle(-2.0, -15.0);
      CreatePuzzle(2.0, -30.0);
      CreatePuzzle(0.0, -45.0);
    }

    /** Appends a marker on the ground at (x, z). */
    method CreatePuzzle(x: real, z: real)
      requires Valid()
      modifies this
      ensures Valid() && created == old(created) + 1
      ensures puzzles == old(puzzles) + [Vec3(x, MarkerY, z)]
      ensures solved == old(solved) && player == old(player)
    {
      puzzles := puzzles + [Vec3(x, MarkerY, z)];
      created := created + 1;
    }

    /** Counts marker `index` as solved and chooses the alert. It runs before
        the marker is removed, so it compares against the current length. */
    method SolvePuzzle(index: nat) returns (msg: Message)
      requires index < |puzzles|
      modifies this`solved
      ensures solved == old(solved) + 1
      ensures msg == Announce(solved, |puzzles|, index)
    {
      solved := solved + 1;
      if solved == |puzzles| {
        msg := AllSolved;
      } else {
        msg := Solved(index + 1);
      }
    }

    /** Scans the markers in order and resolves the first one near the
        player: solves it, removes it and stops. */
    method CheckCollision() returns (msg: Message)
      requires Valid()
      modifies this
      ensures Valid() && created == old(created)
      ensures (msg, State()) == Step(old(State()))
    {
      var i := 0;
      while i < |puzzles|
        invariant 0 <= i <= |puzzles|
        invariant puzzles == old(puzzles) && solved == old(solved)
        invariant player == old(player) && created == old(created)
        invariant forall j :: 0 <= j < i ==> !Near(player, puzzles[j])
      {
        if Near(player, puzzles[i]) {
          assert FirstNear(player, puzzles) == Some(i);
          msg := SolvePuzzle(i);
          puzzles := Remove(puzzles, i);
          return;
        }
        i := i + 1;
      }
      assert FirstNear(player, puzzles) == None;
      msg := Quiet;
    }

    /** Moves the player by Speed along z (w, s) or x (a, d). */
    method HandleKeyDown(key: string)
      modifies this`player
      ensures player == Moved(old(player), key)
    {
      var k := Lower(key);
      if k == "w" {
        player := player.(z := player.z - Speed);
      } else if k == "s" {
        player := player.(z := player.z + Speed);
      } else if k == "a" {
        player := player.(x := player.x - Speed);
      } else if k == "d" {
        player := player.(x := player.x + Speed);
      }
    }
  }
}
