/** The scoring policy: the pure `prev -> new` updaters the app hands to its
    stats state hook, and what they guarantee about points, level and the
    completed-session counter. */
module Progress {
  import opened Types

  /** Points needed to climb one level. */
  const PointsPerLevel: int := 500
  /** Points awarded for one completed session. */
  const SessionReward: int := 100

  /** The level for a point total, `Math.floor(points / 500) + 1`. Dafny's
      `/` is Euclidean, which coincides with floor division for a positive
      divisor, so negative totals are covered too. */
  function LevelFor(points: int): (level: int)
    ensures (level - 1) * PointsPerLevel <= points < level * PointsPerLevel
  {
    points / PointsPerLevel + 1
  }

  /** Level is derived from points, never stored independently. */
  predicate LevelConsistent(s: UserStats)
  {
    s.level == LevelFor(s.points)
  }

  /** The record every user starts from. */
  function InitialStats(): (s: UserStats)
    ensures LevelConsistent(s)
    ensures s.points == 0 && s.completedSessions == 0 && s.streak == 0 && s.badges == []
  {
    UserStats(0, 1, [], 0, 0)
  }

  /** The updater of `addPoints(amount)`. */
  function AddPoints(prev: UserStats, amount: int): (next: UserStats)
    ensures next.points == prev.points + amount
    ensures LevelConsistent(next)
    ensures next.badges == prev.badges && next.streak == prev.streak
    ensures next.completedSessions == prev.completedSessions
  {
    var newPoints := prev.points + amount;
    prev.(points := newPoints, level := LevelFor(newPoints))
  }

  /** The second updater queued by `handleSessionComplete`. */
  function CountSession(prev: UserStats): (next: UserStats)
    ensures next.completedSessions == prev.completedSessions + 1
    ensures next.points == prev.points && next.level == prev.level
    ensures next.badges == prev.badges && next.streak == prev.streak
  {
    prev.(completedSessions := prev.completedSessions + 1)
  }

  /** Both updaters of one session completion, applied in the order they
      were queued. No quiz score enters: the reward is fixed. */
  function CompleteSession(prev: UserStats): (next: UserStats)
    ensures next.points == prev.points + SessionReward
    ensures next.completedSessions == prev.completedSessions + 1
    ensures LevelConsistent(next)
    ensures next.badges == prev.badges && next.streak == prev.streak
  {
    CountSession(AddPoints(prev, SessionReward))
  }

  /** `k` session completions in a row. */
  function CompleteSessions(s: UserStats, k: nat): UserStats
  {
    if k == 0 then s else CompleteSession(CompleteSessions(s, k - 1))
  }

  /** Awards applied one after another. */
  function AwardAll(s: UserStats, awards: seq<int>): UserStats
  {
    if awards == [] then s else AddPoints(AwardAll(s, awards[..|awards| - 1]), awards[|awards| - 1])
  }

  function Sum(xs: seq<int>): int
  {
    if xs == [] then 0 else Sum(xs[..|xs| - 1]) + xs[|xs| - 1]
  }

  /** Floor division is monotone, so the level never drops when points rise. */
  lemma LevelMonotone(p: int, q: int)
    requires p <= q
    ensures LevelFor(p) <= LevelFor(q)
  {
  }

  /** A non-negative award never lowers points or level. */
  lemma AddPointsMonotone(prev: UserStats, amount: int)
    requires LevelConsistent(prev)
    requires amount >= 0
    ensures AddPoints(prev, amount).points >= prev.points
    ensures AddPoints(prev, amount).level >= prev.level
  {
    LevelMonotone(prev.points, prev.points + amount);
  }

  /** The worked example: 450 points plus 100 is 550 points at level 2. */
  lemma AddPointsExample(prev: UserStats)
    requires prev.points == 450
    ensures AddPoints(prev, 100).points == 550 && AddPoints(prev, 100).level == 2
  {
  }

  /** After a sequence of awards, points are the start value plus the sum
      of the awards, and the level matches the points (if there was one). */
  lemma {:induction false} AwardAllSum(s: UserStats, awards: seq<int>)
    ensures AwardAll(s, awards).points == s.points + Sum(awards)
    ensures awards != [] || LevelConsistent(s) ==> LevelConsistent(AwardAll(s, awards))
    ensures AwardAll(s, awards).completedSessions == s.completedSessions
    ensures AwardAll(s, awards).badges == s.badges && AwardAll(s, awards).streak == s.streak
  {
    if awards != [] {
      AwardAllSum(s, awards[..|awards| - 1]);
    }
  }

  /** With non-negative awards, points and level never decrease across the
      whole sequence. */
  lemma {:induction false} AwardAllMonotone(s: UserStats, awards: seq<int>)
    requires LevelConsistent(s)
    requires forall i :: 0 <= i < |awards| ==> awards[i] >= 0
    ensures AwardAll(s, awards).points >= s.points
    ensures AwardAll(s, awards).level >= s.level
  {
    if awards != [] {
      var init := awards[..|awards| - 1];
      AwardAllMonotone(s, init);
      AwardAllSum(s, init);
      AddPointsMonotone(AwardAll(s, init), awards[|awards| - 1]);
    }
  }

  /** `k` completions add exactly `100 * k` points and `k` sessions, and keep
      the level formula true. */
  lemma {:induction false} CompleteSessionsEffect(s: UserStats, k: nat)
    ensures CompleteSessions(s, k).points == s.points + SessionReward * k
    ensures CompleteSessions(s, k).completedSessions == s.completedSessions + k
    ensures k > 0 || LevelConsistent(s) ==> LevelConsistent(CompleteSessions(s, k))
    ensures CompleteSessions(s, k).badges == s.badges && CompleteSessions(s, k).streak == s.streak
  {
    if k > 0 {
      CompleteSessionsEffect(s, k - 1);
    }
  }

  /** From the initial record, `k` completions give `100 * k` points, `k`
      sessions and level `floor(100 * k / 500) + 1`. */
  lemma CompleteSessionsFromStart(k: nat)
    ensures CompleteSessions(InitialStats(), k)
         == UserStats(SessionReward * k, LevelFor(SessionReward * k), [], 0, k)
  {
    CompleteSessionsEffect(InitialStats(), k);
  }

  /** One completion from scratch: 100 points, level 1, one session. */
  lemma OneSessionFromStart()
    ensures CompleteSessions(InitialStats(), 1) == UserStats(100, 1, [], 0, 1)
  {
    CompleteSessionsFromStart(1);
  }

  /** Five completions from scratch: 500 points, level 2, five sessions. */
  lemma FiveSessionsFromStart()
    ensures CompleteSessions(InitialStats(), 5) == UserStats(500, 2, [], 0, 5)
  {
    CompleteSessionsFromStart(5);
  }
}
