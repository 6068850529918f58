/** The rules of the game, as values: the constants of main.js, obstacles,
    the classification of one obstacle against the cube, and the
    specification of a whole collision pass and of obstacle spawning.
    The stateful game in game.dfy is proved against these definitions. */
module GameRules {

  /** Velocity added to velocityY on every playing frame. */
  const Gravity: real := -0.01
  /** Vertical velocity set by a jump (Space) and by a landing bounce. */
  const JumpStrength: real := 0.2
  /** Horizontal step of the cube per frame while a move key is held. */
  const MoveStep: real := 0.1
  /** Distance every obstacle travels in the -x direction per playing frame. */
  const ObstacleStep: real := 0.1
  /** Horizontal coordinate at which obstacles appear. */
  const SpawnX: real := 10.0
  /** Half the edge of the unit cube (the player's bounding box). */
  const HalfSize: real := 0.5
  /** Landing band, measured from the obstacle centre up to the cube's bottom. */
  const LandingReach: real := 0.6
  const LandingClearance: real := 0.3
  /** List length that, reached right after a push, evicts the oldest obstacle. */
  const EvictAt: nat := 4
  /** Largest number of obstacles that survive a spawn. */
  const MaxLive: nat := EvictAt - 1

  /** An obstacle cube: an opaque identity (the mesh object) and its centre. */
  datatype Obstacle = Obstacle(id: nat, x: real, y: real)

  /** What one obstacle does to the game during a collision pass. */
  datatype Outcome = Landing | Hit | Miss

  /** Obstacle centre strictly inside the cube's horizontal extent. */
  predicate Overlaps(o: Obstacle, cubeX: real)
  {
    cubeX - HalfSize < o.x < cubeX + HalfSize
  }

  /** The landing test: the cube's bottom lies between 0.3 and 0.6 above the obstacle centre. */
  predicate LandsOn(o: Obstacle, cubeY: real)
  {
    var bottom := cubeY - HalfSize;
    o.y + LandingReach >= bottom && o.y + LandingClearance <= bottom
  }

  /** The hit test: the obstacle centre lies strictly inside the cube's vertical extent. */
  predicate StrikesBody(o: Obstacle, cubeY: real)
  {
    cubeY - HalfSize < o.y < cubeY + HalfSize
  }

  /** The two vertical tests never hold together, so the source's two
      independent `if`s fire at most one outcome per obstacle. */
  lemma LandingExcludesHit(o: Obstacle, cubeY: real)
    ensures !(LandsOn(o, cubeY) && StrikesBody(o, cubeY))
  {
  }

  /** Classification of one obstacle; the landing test is tried first, but
      because the tests are disjoint each outcome is exactly its own test. */
  function Classify(o: Obstacle, cubeX: real, cubeY: real): (c: Outcome)
    ensures c == Landing <==> Overlaps(o, cubeX) && LandsOn(o, cubeY)
    ensures c == Hit <==> Overlaps(o, cubeX) && StrikesBody(o, cubeY)
    ensures !Overlaps(o, cubeX) ==> c == Miss
  {
    if !Overlaps(o, cubeX) then Miss
    else if LandsOn(o, cubeY) then Landing
    else if StrikesBody(o, cubeY) then Hit
    else Miss
  }

  /** No two obstacles share an identity. */
  predicate DistinctIds(s: seq<Obstacle>)
  {
    forall i, j :: 0 <= i < j < |s| ==> s[i].id != s[j].id
  }

  /** The list with every obstacle of the given identity filtered out. */
  function Without(s: seq<Obstacle>, id: nat): seq<Obstacle>
  {
    if s == [] then [] else (if s[0].id == id then [] else [s[0]]) + Without(s[1..], id)
  }

  /** Filtering by identity drops exactly the obstacles of that identity. */
  lemma {:induction false} WithoutMembers(s: seq<Obstacle>, id: nat)
    ensures forall o :: o in Without(s, id) <==> o in s && o.id != id
    ensures |Without(s, id)| <= |s|
  {
    if s != [] {
      assert s == [s[0]] + s[1..];
      WithoutMembers(s[1..], id);
    }
  }

  lemma WithoutAppend(a: seq<Obstacle>, b: seq<Obstacle>, id: nat)
    ensures Without(a + b, id) == Without(a, id) + Without(b, id)
  {
    if a != [] {
      var head := if a[0].id == id then [] else [a[0]];
      assert (a + b)[0] == a[0] && (a + b)[1..] == a[1..] + b;
      assert Without(a + b, id) == head + Without(a[1..] + b, id);
      WithoutAppend(a[1..], b, id);
      assert Without(a, id) == head + Without(a[1..], id);
    } else {
      assert a + b == b;
    }
  }

  lemma WithoutAbsent(s: seq<Obstacle>, id: nat)
    requires forall o :: o in s ==> o.id != id
    ensures Without(s, id) == s
  {
    if s != [] {
      assert s[0] in s;
      WithoutAbsent(s[1..], id);
    }
  }

  /** The obstacles of a pass that no outcome removes, in their original order. */
  function Survivors(s: seq<Obstacle>, cubeX: real, cubeY: real): seq<Obstacle>
  {
    if s == [] then []
    else
      var last := s[|s| - 1];
      Survivors(s[..|s| - 1], cubeX, cubeY) + (if Classify(last, cubeX, cubeY) == Miss then [last] else [])
  }

  /** The survivors are exactly the obstacles of the pass classified as neither landing nor hit. */
  lemma {:induction false} SurvivorsMembers(s: seq<Obstacle>, cubeX: real, cubeY: real)
    ensures forall o :: o in Survivors(s, cubeX, cubeY) <==> o in s && Classify(o, cubeX, cubeY) == Miss
    ensures |Survivors(s, cubeX, cubeY)| <= |s|
  {
    if s != [] {
      var init, last := s[..|s| - 1], s[|s| - 1];
      assert s == init + [last];
      SurvivorsMembers(init, cubeX, cubeY);
    }
  }

  /** Some obstacle of the pass has the given outcome (checked from the newest back). */
  predicate Occurs(s: seq<Obstacle>, cubeX: real, cubeY: real, c: Outcome)
  {
    s != [] && (Classify(s[|s| - 1], cubeX, cubeY) == c || Occurs(s[..|s| - 1], cubeX, cubeY, c))
  }

  /** Some obstacle of the pass is a hit. */
  predicate AnyHit(s: seq<Obstacle>, cubeX: real, cubeY: real)
  {
    Occurs(s, cubeX, cubeY, Hit)
  }

  /** Some obstacle of the pass is a landing. */
  predicate AnyLanding(s: seq<Obstacle>, cubeX: real, cubeY: real)
  {
    Occurs(s, cubeX, cubeY, Landing)
  }

  /** An outcome occurs in a pass exactly when some obstacle of the pass has it. */
  lemma {:induction false} OccursMeans(s: seq<Obstacle>, cubeX: real, cubeY: real, c: Outcome)
    ensures Occurs(s, cubeX, cubeY, c) <==> exists o :: o in s && Classify(o, cubeX, cubeY) == c
  {
    if s != [] {
      var init, last := s[..|s| - 1], s[|s| - 1];
      assert s == init + [last];
      OccursMeans(init, cubeX, cubeY, c);
    }
  }

  /** Number of landings in a pass. */
  function CountLandings(s: seq<Obstacle>, cubeX: real, cubeY: real): nat
  {
    if s == [] then 0
    else
      CountLandings(s[..|s| - 1], cubeX, cubeY)
        + (if Classify(s[|s| - 1], cubeX, cubeY) == Landing then 1 else 0)
  }

  /** What one outcome does to the score: +1 on a landing, reset on a hit. */
  function Effect(c: Outcome, score: int): int
  {
    match c
    case Landing => score + 1
    case Hit => 0
    case Miss => score
  }

  /** The score after the obstacles of the pass are classified one by one, in order. */
  function ScoreAfter(s: seq<Obstacle>, cubeX: real, cubeY: real, score: int): int
  {
    if s == [] then score
    else Effect(Classify(s[|s| - 1], cubeX, cubeY), ScoreAfter(s[..|s| - 1], cubeX, cubeY, score))
  }

  /** Extending a pass by one obstacle extends each of its results by that obstacle's outcome. */
  lemma PassStep(snap: seq<Obstacle>, i: nat, cubeX: real, cubeY: real, score: int)
    requires i < |snap|
    ensures var o, done, more := snap[i], snap[..i], snap[..i + 1];
      var c := Classify(o, cubeX, cubeY);
      && Survivors(more, cubeX, cubeY) == Survivors(done, cubeX, cubeY) + (if c == Miss then [o] else [])
      && (AnyHit(more, cubeX, cubeY) <==> AnyHit(done, cubeX, cubeY) || c == Hit)
      && (AnyLanding(more, cubeX, cubeY) <==> AnyLanding(done, cubeX, cubeY) || c == Landing)
      && ScoreAfter(more, cubeX, cubeY, score) == Effect(c, ScoreAfter(done, cubeX, cubeY, score))
  {
    assert snap[..i + 1][..i] == snap[..i];
    assert snap[..i + 1] == snap[..i] + [snap[i]];
  }

  /** An obstacle outside the cube's horizontal extent leaves every result of the pass as it was
      and stays in the list. */
  lemma UngatedIsNeutral(s: seq<Obstacle>, o: Obstacle, cubeX: real, cubeY: real, score: int)
    requires !Overlaps(o, cubeX)
    ensures Survivors(s + [o], cubeX, cubeY) == Survivors(s, cubeX, cubeY) + [o]
    ensures AnyHit(s + [o], cubeX, cubeY) == AnyHit(s, cubeX, cubeY)
    ensures AnyLanding(s + [o], cubeX, cubeY) == AnyLanding(s, cubeX, cubeY)
    ensures ScoreAfter(s + [o], cubeX, cubeY, score) == ScoreAfter(s, cubeX, cubeY, score)
  {
    assert (s + [o])[..|s|] == s;
  }

  /** A score that starts non-negative stays non-negative through a pass. */
  lemma {:induction false} ScoreAfterNonNegative(s: seq<Obstacle>, cubeX: real, cubeY: real, score: int)
    requires 0 <= score
    ensures 0 <= ScoreAfter(s, cubeX, cubeY, score)
  {
    if s != [] {
      ScoreAfterNonNegative(s[..|s| - 1], cubeX, cubeY, score);
    }
  }

  /** Without a hit, a pass adds exactly one point per landing. */
  lemma {:induction false} ScoreWithoutHit(s: seq<Obstacle>, cubeX: real, cubeY: real, score: int)
    requires !AnyHit(s, cubeX, cubeY)
    ensures ScoreAfter(s, cubeX, cubeY, score) == score + CountLandings(s, cubeX, cubeY)
  {
    if s != [] {
      var init := s[..|s| - 1];
      ScoreWithoutHit(init, cubeX, cubeY, score);
    }
  }

  /** After a pass that contains a hit, the score no longer depends on the score before it. */
  lemma {:induction false} ScoreForgottenAfterHit(s: seq<Obstacle>, cubeX: real, cubeY: real, a: int, b: int)
    requires AnyHit(s, cubeX, cubeY)
    ensures ScoreAfter(s, cubeX, cubeY, a) == ScoreAfter(s, cubeX, cubeY, b)
  {
    var init, last := s[..|s| - 1], s[|s| - 1];
    if Classify(last, cubeX, cubeY) != Hit {
      ScoreForgottenAfterHit(init, cubeX, cubeY, a, b);
    }
  }

  /** Filtering a list with distinct identities keeps them distinct. */
  lemma {:induction false} SurvivorsDistinct(s: seq<Obstacle>, cubeX: real, cubeY: real)
    requires DistinctIds(s)
    ensures DistinctIds(Survivors(s, cubeX, cubeY))
  {
    if s != [] {
      var init, last := s[..|s| - 1], s[|s| - 1];
      assert DistinctIds(init);
      SurvivorsDistinct(init, cubeX, cubeY);
      SurvivorsMembers(init, cubeX, cubeY);
      var r := Survivors(init, cubeX, cubeY);
      forall o | o in r ensures o.id != last.id {
        var k :| 0 <= k < |init| && init[k] == o;
      }
    }
  }

  /** What the collision pass keeps of the game's invariant: the survivors are
      no more than before, keep distinct identities already handed out, and the
      score stays non-negative. */
  lemma PassKeepsInvariant(s: seq<Obstacle>, cubeX: real, cubeY: real, score: int, bound: nat)
    requires 0 <= score && DistinctIds(s) && forall o :: o in s ==> o.id < bound
    ensures var r := Survivors(s, cubeX, cubeY);
      && |r| <= |s| && DistinctIds(r) && (forall o :: o in r ==> o.id < bound)
      && 0 <= ScoreAfter(s, cubeX, cubeY, score)
  {
    ScoreAfterNonNegative(s, cubeX, cubeY, score);
    SurvivorsDistinct(s, cubeX, cubeY);
    SurvivorsMembers(s, cubeX, cubeY);
  }

  /** In a list with distinct identities, no other element shares the identity of element i. */
  lemma OthersDiffer(snap: seq<Obstacle>, i: nat)
    requires DistinctIds(snap) && i < |snap|
    ensures forall p :: p in snap[..i] ==> p.id != snap[i].id
    ensures forall p :: p in snap[i + 1..] ==> p.id != snap[i].id
  {
    forall p | p in snap[..i] ensures p.id != snap[i].id {
      var k :| 0 <= k < i && snap[k] == p;
    }
    forall p | p in snap[i + 1..] ensures p.id != snap[i].id {
      var k :| i + 1 <= k < |snap| && snap[k] == p;
    }
  }

  /** The list as it stands during a pass, after obstacles 0..i-1 were classified,
      loses exactly obstacle i when obstacle i is filtered out by identity. */
  lemma RemoveCurrent(snap: seq<Obstacle>, i: nat, cubeX: real, cubeY: real)
    requires DistinctIds(snap) && i < |snap|
    ensures Without(Survivors(snap[..i], cubeX, cubeY) + snap[i..], snap[i].id)
            == Survivors(snap[..i], cubeX, cubeY) + snap[i + 1..]
  {
    var o, done, rest := snap[i], Survivors(snap[..i], cubeX, cubeY), snap[i + 1..];
    OthersDiffer(snap, i);
    SurvivorsMembers(snap[..i], cubeX, cubeY);
    WithoutAbsent(done, o.id);
    WithoutAbsent(rest, o.id);
    assert snap[i..] == [o] + rest;
    WithoutAppend([o], rest, o.id);
    assert Without([o], o.id) == [];
    assert Without(snap[i..], o.id) == rest;
    WithoutAppend(done, snap[i..], o.id);
  }

  /** One obstacle resolved: the list during the pass, with obstacle i filtered
      out when it is classified, is the list one step further along the pass. */
  lemma PassStepList(snap: seq<Obstacle>, i: nat, cubeX: real, cubeY: real)
    requires DistinctIds(snap) && i < |snap|
    ensures var o, now := snap[i], Survivors(snap[..i], cubeX, cubeY) + snap[i..];
      (if Classify(o, cubeX, cubeY) == Miss then now else Without(now, o.id))
        == Survivors(snap[..i + 1], cubeX, cubeY) + snap[i + 1..]
  {
    RemoveCurrent(snap, i, cubeX, cubeY);
    PassStep(snap, i, cubeX, cubeY, 0);
    var done := Survivors(snap[..i], cubeX, cubeY);
    assert done + snap[i..] == done + [snap[i]] + snap[i + 1..];
  }

  /** The part of the game a collision pass reads and writes. */
  datatype PassState = PassState(obstacles: seq<Obstacle>, playState: bool, velocityY: real, score: int)

  /** The pass's callback for one obstacle, test by test as the source makes them:
      inside the horizontal extent, a landing bounces, scores and filters the
      obstacle out; then, independently, a hit pauses, filters it out and resets the score. */
  function Step(st: PassState, o: Obstacle, cubeX: real, cubeY: real): PassState
  {
    if !Overlaps(o, cubeX) then st
    else
      var landed :=
        if LandsOn(o, cubeY)
        then st.(velocityY := JumpStrength, score := st.score + 1, obstacles := Without(st.obstacles, o.id))
        else st;
      if StrikesBody(o, cubeY)
      then landed.(playState := false, obstacles := Without(landed.obstacles, o.id), score := 0)
      else landed
  }

  /** The callback fires at most one outcome, and each outcome has exactly its documented effect. */
  lemma StepByOutcome(st: PassState, o: Obstacle, cubeX: real, cubeY: real)
    ensures Step(st, o, cubeX, cubeY) == match Classify(o, cubeX, cubeY)
      case Miss => st
      case Landing => st.(velocityY := JumpStrength, score := st.score + 1, obstacles := Without(st.obstacles, o.id))
      case Hit => st.(playState := false, obstacles := Without(st.obstacles, o.id), score := 0)
  {
    LandingExcludesHit(o, cubeY);
  }

  /** The callback applied to each obstacle of the list, in order. */
  function Pass(st: PassState, s: seq<Obstacle>, cubeX: real, cubeY: real): PassState
  {
    if s == [] then st else Step(Pass(st, s[..|s| - 1], cubeX, cubeY), s[|s| - 1], cubeX, cubeY)
  }

  /** Part way through a pass over the list as it stood at the start, the state is:
      the classified obstacles filtered out of the list, play stopped iff some obstacle
      was a hit, the bounce velocity iff some obstacle was a landing, and the score
      folded over the outcomes. */
  lemma {:induction false} PassPrefix(snap: seq<Obstacle>, i: nat, st: PassState, cubeX: real, cubeY: real)
    requires DistinctIds(snap) && i <= |snap| && st.obstacles == snap
    ensures Pass(st, snap[..i], cubeX, cubeY) == PassState(
      Survivors(snap[..i], cubeX, cubeY) + snap[i..],
      st.playState && !AnyHit(snap[..i], cubeX, cubeY),
      if AnyLanding(snap[..i], cubeX, cubeY) then JumpStrength else st.velocityY,
      ScoreAfter(snap[..i], cubeX, cubeY, st.score))
  {
    if i == 0 {
      assert snap[..0] == [] && snap[0..] == snap;
    } else {
      var j := i - 1;
      var prev, o := Pass(st, snap[..j], cubeX, cubeY), snap[j];
      PassPrefix(snap, j, st, cubeX, cubeY);
      assert Pass(st, snap[..i], cubeX, cubeY) == Step(prev, o, cubeX, cubeY) by {
        assert snap[..i][..j] == snap[..j] && snap[..i][j] == o;
      }
      PassStep(snap, j, cubeX, cubeY, st.score);
      PassStepList(snap, j, cubeX, cubeY);
      StepByOutcome(prev, o, cubeX, cubeY);
    }
  }

  /** A whole pass: the survivors are exactly the unclassified obstacles in their order. */
  lemma PassClosedForm(snap: seq<Obstacle>, st: PassState, cubeX: real, cubeY: real)
    requires DistinctIds(snap) && st.obstacles == snap
    ensures Pass(st, snap, cubeX, cubeY) == PassState(
      Survivors(snap, cubeX, cubeY),
      st.playState && !AnyHit(snap, cubeX, cubeY),
      if AnyLanding(snap, cubeX, cubeY) then JumpStrength else st.velocityY,
      ScoreAfter(snap, cubeX, cubeY, st.score))
  {
    PassPrefix(snap, |snap|, st, cubeX, cubeY);
    assert snap[..|snap|] == snap && snap[|snap|..] == [];
  }

  /** The obstacle list after each obstacle moved one step in the -x direction. */
  function Advanced(s: seq<Obstacle>): seq<Obstacle>
  {
    seq(|s|, i requires 0 <= i < |s| => s[i].(x := s[i].x - ObstacleStep))
  }

  /** Moving obstacles keeps their identities, heights and order. */
  lemma AdvancedKeepsIdentity(s: seq<Obstacle>, bound: nat)
    requires DistinctIds(s) && forall o :: o in s ==> o.id < bound
    ensures |Advanced(s)| == |s| && DistinctIds(Advanced(s))
    ensures forall o :: o in Advanced(s) ==> o.id < bound
    ensures forall i :: 0 <= i < |s| ==> Advanced(s)[i].id == s[i].id && Advanced(s)[i].y == s[i].y
  {
    forall o | o in Advanced(s) ensures o.id < bound {
      var k :| 0 <= k < |s| && Advanced(s)[k] == o;
      assert s[k] in s;
    }
  }

  /** The list after one spawn: push the new obstacle, then drop the oldest
      once the list has reached EvictAt. The threshold before the push is therefore MaxLive. */
  function Spawn(s: seq<Obstacle>, o: Obstacle): (r: seq<Obstacle>)
    ensures |r| > 0 && r[|r| - 1] == o
    ensures |s| < MaxLive ==> r == s + [o]
    ensures |s| >= MaxLive ==> r == s[1..] + [o]
    ensures |s| <= MaxLive ==> |r| <= MaxLive
  {
    var pushed := s + [o];
    if |pushed| >= EvictAt then pushed[1..] else pushed
  }

  /** The list after spawning the given obstacles one after another. */
  function SpawnAll(s: seq<Obstacle>, news: seq<Obstacle>): seq<Obstacle>
    decreases |news|
  {
    if news == [] then s else SpawnAll(Spawn(s, news[0]), news[1..])
  }

  /** The newest MaxLive obstacles of a list (all of them if there are fewer):
      the oldest are dropped one by one. */
  function Newest(s: seq<Obstacle>): seq<Obstacle>
  {
    if |s| <= MaxLive then s else Newest(s[1..])
  }

  /** Spawning the first of several obstacles keeps the newest obstacles of the whole history. */
  lemma SpawnKeepsNewest(s: seq<Obstacle>, news: seq<Obstacle>)
    requires |s| <= MaxLive && news != []
    ensures |Spawn(s, news[0])| <= MaxLive
    ensures Newest(Spawn(s, news[0]) + news[1..]) == Newest(s + news)
  {
    var pushed, rest := s + [news[0]], news[1..];
    assert pushed + rest == s + news;
    if |s| == MaxLive {
      assert Spawn(s, news[0]) == pushed[1..];
      assert (pushed + rest)[1..] == pushed[1..] + rest;
    }
  }

  /** Whatever the spawn history, the list holds exactly the newest MaxLive obstacles, oldest first. */
  lemma {:induction false} SpawnAllKeepsNewest(s: seq<Obstacle>, news: seq<Obstacle>)
    requires |s| <= MaxLive
    ensures SpawnAll(s, news) == Newest(s + news)
    decreases |news|
  {
    if news == [] {
      assert s + news == s;
    } else {
      SpawnKeepsNewest(s, news);
      SpawnAllKeepsNewest(Spawn(s, news[0]), news[1..]);
    }
  }

  /** The fourth spawn from an empty list evicts the first obstacle. */
  lemma FourthSpawnEvictsFirst(a: Obstacle, b: Obstacle, c: Obstacle, d: Obstacle)
    requires a.id != b.id && a.id != c.id && a.id != d.id
    ensures SpawnAll([], [a, b, c, d]) == [b, c, d]
    ensures forall o :: o in SpawnAll([], [a, b, c, d]) ==> o.id != a.id
  {
    SpawnAllKeepsNewest([], [a, b, c, d]);
  }

  /** A landing and a hit in one pass, cube at the origin: the landing scores,
      the later hit resets the score and both obstacles leave the list. */
  lemma PassExamples(score: int)
    ensures var land, hit := Obstacle(0, 0.0, -1.0), Obstacle(1, 0.0, 0.2);
      && ScoreAfter([land], 0.0, 0.0, score) == score + 1
      && Survivors([land], 0.0, 0.0) == []
      && AnyLanding([land], 0.0, 0.0) && !AnyHit([land], 0.0, 0.0)
      && ScoreAfter([land, hit], 0.0, 0.0, score) == 0
      && Survivors([land, hit], 0.0, 0.0) == []
      && AnyHit([land, hit], 0.0, 0.0)
  {
    var land, hit := Obstacle(0, 0.0, -1.0), Obstacle(1, 0.0, 0.2);
    assert [land, hit][..1] == [land];
    assert Classify(land, 0.0, 0.0) == Landing && Classify(hit, 0.0, 0.0) == Hit;
  }

  /** Concrete classifications for a cube at the origin. */
  lemma ClassifyExamples()
    ensures Classify(Obstacle(0, 0.0, -1.0), 0.0, 0.0) == Landing
    ensures Classify(Obstacle(0, 0.0, -0.45), 0.0, 0.0) == Hit
    ensures Classify(Obstacle(0, 0.0, 0.2), 0.0, 0.0) == Hit
    ensures Classify(Obstacle(0, 0.5, 0.2), 0.0, 0.0) == Miss
  {
  }
}
