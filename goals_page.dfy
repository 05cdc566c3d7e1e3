/**
 * The goals dashboard (pages/GoalsPage.tsx): per-goal progress, the
 * headline statistics, the per-user ranking built by tallying the goals
 * into a map keyed by user, the list filter and the ranking badges.
 */
module GoalsPage {
  import opened Wrappers
  import opened Lists
  import opened Numbers
  import Text

  /** A row of `goals` with its joined assignee name. */
  datatype Goal = Goal(
    id: string, goalType: string, period: Option<string>,
    userId: Option<string>, assigneeName: Option<string>,
    current: Option<int>, target: int)

  /** `calculateProgress`: no target gives 0; a missing current value counts as 0; not capped. */
  function Progress(current: Option<int>, target: int): (p: int)
    ensures target == 0 ==> p == 0
    ensures target > 0 && 0 <= current.GetOr(0) <= target ==> 0 <= p <= 100
    ensures target > 0 && current.GetOr(0) == target ==> p == 100
    ensures target > 0 && current.GetOr(0) >= target ==> p >= 100
    ensures target > 0 && current.GetOr(0) < 0 ==> p <= 0
    ensures target != 0 ==> RoundsTo(p, current.GetOr(0) as real / target as real * 100.0)
  {
    var c := current.GetOr(0);
    if target == 0 then 0
    else
      OverTarget(c, target);
      Percent(c as real, target as real)
  }

  lemma OverTarget(c: int, target: int)
    requires target != 0
    ensures target > 0 && c >= target ==> Round(c as real / target as real * 100.0) >= 100
    ensures target > 0 && c < 0 ==> Round(c as real / target as real * 100.0) <= 0
  {
    var x := c as real / target as real;
    assert x * target as real == c as real;
    if target > 0 && c >= target {
      RoundMonotone(100.0, x * 100.0);
      RoundInt(100);
    }
    if target > 0 && c < 0 {
      RoundMonotone(x * 100.0, 0.0);
      RoundInt(0);
    }
  }

  /** A goal counts as completed in the headline when its current value (or 0) reaches the target. */
  predicate Completed(g: Goal) {
    g.current.GetOr(0) >= g.target
  }

  /** `target_value || 1`: the divisor the statistics use, never zero. */
  function Divisor(g: Goal): (d: int)
    ensures d != 0
    ensures g.target != 0 ==> d == g.target
  {
    if g.target == 0 then 1 else g.target
  }

  /** The progress the ranking adds up, uncapped. */
  function RankProgress(g: Goal): (p: int)
    ensures g.current.GetOr(0) >= 0 && g.target >= 0 ==> p >= 0
  {
    NonNegativeShare(g.current.GetOr(0), Divisor(g));
    Round(g.current.GetOr(0) as real / Divisor(g) as real * 100.0)
  }

  lemma NonNegativeShare(c: int, d: int)
    requires d != 0
    ensures c >= 0 && d > 0 ==> Round(c as real / d as real * 100.0) >= 0
  {
    if c >= 0 && d > 0 {
      RoundMonotone(0.0, c as real / d as real * 100.0);
      RoundInt(0);
    }
  }

  /** The progress the average adds up: capped at 100. */
  function CappedProgress(g: Goal): (p: int)
    ensures p <= 100 && (p == 100 || p == RankProgress(g))
    ensures g.current.GetOr(0) >= 0 && g.target >= 0 ==> p >= 0
  {
    if RankProgress(g) < 100 then RankProgress(g) else 100
  }

  // ---------------------------------------------------------- the ranking

  /** One user's accumulator in the ranking map. */
  datatype UserTally = UserTally(id: string, name: string, totalProgress: int, goalCount: nat, completedCount: nat)

  /** A goal with a user: `if (!g.user_id) return` skips the others. */
  predicate HasOwner(g: Goal) {
    g.userId.Some? && g.userId.value != ""
  }

  function Owned(uid: string): Goal -> bool {
    (g: Goal) => g.userId == Some(uid)
  }

  function OwnedReached(uid: string): Goal -> bool {
    (g: Goal) => g.userId == Some(uid) && RankProgress(g) >= 100
  }

  /** `userMap.has(id)` / `get(id)`: the place of `id` among the entries, or -1. */
  function EntryIndex(entries: seq<UserTally>, id: string): (k: int)
    ensures -1 <= k < |entries|
    ensures k >= 0 ==> entries[k].id == id && forall j :: 0 <= j < k ==> entries[j].id != id
    ensures k == -1 ==> forall j :: 0 <= j < |entries| ==> entries[j].id != id
  {
    if entries == [] then -1
    else if entries[0].id == id then 0
    else
      var k := EntryIndex(entries[1..], id);
      if k == -1 then -1 else k + 1
  }

  /** The first goal of a user names the entry. */
  function NewTally(g: Goal, uid: string): (t: UserTally)
  {
    var p := RankProgress(g);
    UserTally(uid, Text.OrDefault(g.assigneeName, "Sem Nome"), p, 1, if p >= 100 then 1 else 0)
  }

  /** One step of the `forEach`: create the user's entry if needed, then add the goal to it. */
  function AddToTally(entries: seq<UserTally>, g: Goal, uid: string): (r: seq<UserTally>)
  {
    var p := RankProgress(g);
    var k := EntryIndex(entries, uid);
    if k == -1 then entries + [NewTally(g, uid)]
    else
      var u := entries[k];
      entries[k := u.(totalProgress := u.totalProgress + p, goalCount := u.goalCount + 1,
                      completedCount := u.completedCount + (if p >= 100 then 1 else 0))]
  }

  /**
   * The ranking map after the goals `data`, in insertion order: one entry per
   * distinct user, none without a goal, none for a goal without a user.
   */
  function Tally(data: seq<Goal>): (r: seq<UserTally>)
    ensures |r| <= |data|
  {
    if data == [] then []
    else
      var g := data[|data| - 1];
      var before := Tally(data[..|data| - 1]);
      if !HasOwner(g) then before else AddToTally(before, g, g.userId.value)
  }

  /** Every entry has a user id and at least one goal, and no user has two entries. */
  lemma {:induction false} TallyWellFormed(data: seq<Goal>)
    ensures forall i :: 0 <= i < |Tally(data)| ==> Tally(data)[i].id != "" && Tally(data)[i].goalCount >= 1
    ensures forall i, j :: 0 <= i < j < |Tally(data)| ==> Tally(data)[i].id != Tally(data)[j].id
  {
    if data != [] {
      var init := data[..|data| - 1];
      var g := data[|data| - 1];
      TallyWellFormed(init);
      assert data == init + [g];
      TallySnoc(init, g);
    }
  }

  /** The ranking is empty exactly when no goal has a user. */
  lemma {:induction false} TallyEmpty(data: seq<Goal>)
    ensures (Tally(data) == []) == (forall i :: 0 <= i < |data| ==> !HasOwner(data[i]))
  {
    if data != [] {
      var init := data[..|data| - 1];
      var g := data[|data| - 1];
      TallyEmpty(init);
      assert data == init + [g];
      TallySnoc(init, g);
      if !HasOwner(g) {
        forall i | 0 <= i < |init| ensures data[i] == init[i] {}
      }
    }
  }

  /** The sum of the uncapped progress of some goals. */
  function ProgressTotal(gs: seq<Goal>): (n: int)
  {
    if gs == [] then 0 else ProgressTotal(gs[..|gs| - 1]) + RankProgress(gs[|gs| - 1])
  }

  /** Filtering one more goal at the end. */
  lemma FilterSnoc(init: seq<Goal>, g: Goal, f: Goal -> bool)
    ensures Filter(init + [g], f) == Filter(init, f) + (if f(g) then [g] else [])
  {
    FilterAppend(init, [g], f);
    assert [g][1..] == [];
  }

  /** Entries with the same ids answer every lookup alike. */
  lemma EntryIndexSameIds(a: seq<UserTally>, b: seq<UserTally>, id: string)
    requires |a| == |b| && forall j :: 0 <= j < |a| ==> a[j].id == b[j].id
    ensures EntryIndex(a, id) == EntryIndex(b, id)
  {
  }

  lemma EntryIndexAppend(a: seq<UserTally>, t: UserTally, id: string)
    ensures EntryIndex(a + [t], id) ==
      (if EntryIndex(a, id) >= 0 then EntryIndex(a, id) else if t.id == id then |a| else -1)
  {
    var k := EntryIndex(a + [t], id);
    if EntryIndex(a, id) >= 0 {
      assert (a + [t])[EntryIndex(a, id)].id == id;
    } else if t.id == id {
      assert (a + [t])[|a|].id == id;
    }
  }

  /** The entry of `uid` after adding one of that user's goals. */
  function Added(before: seq<UserTally>, g: Goal, uid: string): (t: UserTally)
  {
    var k := EntryIndex(before, uid);
    var p := RankProgress(g);
    if k == -1 then NewTally(g, uid)
    else before[k].(totalProgress := before[k].totalProgress + p, goalCount := before[k].goalCount + 1,
                    completedCount := before[k].completedCount + (if p >= 100 then 1 else 0))
  }

  lemma AddToTallyOwn(before: seq<UserTally>, g: Goal, uid: string)
    ensures var k := EntryIndex(AddToTally(before, g, uid), uid);
      k >= 0 && AddToTally(before, g, uid)[k] == Added(before, g, uid)
  {
    var k := EntryIndex(before, uid);
    if k == -1 {
      EntryIndexAppend(before, NewTally(g, uid), uid);
    } else {
      EntryIndexSameIds(before, AddToTally(before, g, uid), uid);
    }
  }

  lemma AddToTallyOther(before: seq<UserTally>, g: Goal, w: string, uid: string)
    requires w != uid
    ensures var k := EntryIndex(AddToTally(before, g, w), uid);
      k == EntryIndex(before, uid) && (k >= 0 ==> AddToTally(before, g, w)[k] == before[k])
  {
    var k := EntryIndex(before, w);
    if k == -1 {
      EntryIndexAppend(before, NewTally(g, w), uid);
    } else {
      EntryIndexSameIds(before, AddToTally(before, g, w), uid);
    }
  }

  /**
   * What the entry of `uid` should hold after the goals `data`, if it exists:
   * the name comes from the user's first goal, 'Sem Nome' when that goal's
   * assignee name is missing or empty.
   */
  predicate TalliedRight(data: seq<Goal>, uid: string, t: UserTally) {
    t.goalCount == Count(data, Owned(uid))
    && t.totalProgress == ProgressTotal(Filter(data, Owned(uid)))
    && t.completedCount == Count(data, OwnedReached(uid))
    && (t.goalCount > 0 ==> t.name == Text.OrDefault(Filter(data, Owned(uid))[0].assigneeName, "Sem Nome"))
  }

  lemma TallySnoc(init: seq<Goal>, g: Goal)
    ensures Tally(init + [g]) == if HasOwner(g) then AddToTally(Tally(init), g, g.userId.value) else Tally(init)
  {
    assert (init + [g])[..|init|] == init;
  }

  /** Counting and summing one more goal of `uid`, or of someone else. */
  lemma TotalsSnoc(init: seq<Goal>, g: Goal, uid: string)
    ensures Count(init + [g], Owned(uid)) == Count(init, Owned(uid)) + (if Owned(uid)(g) then 1 else 0)
    ensures Count(init + [g], OwnedReached(uid)) == Count(init, OwnedReached(uid)) + (if OwnedReached(uid)(g) then 1 else 0)
    ensures ProgressTotal(Filter(init + [g], Owned(uid)))
         == ProgressTotal(Filter(init, Owned(uid))) + (if Owned(uid)(g) then RankProgress(g) else 0)
  {
    FilterSnoc(init, g, Owned(uid));
    FilterSnoc(init, g, OwnedReached(uid));
    var fo := Filter(init, Owned(uid));
    if Owned(uid)(g) {
      assert (fo + [g])[..|fo|] == fo;
    } else {
      assert fo + [] == fo;
    }
  }

  /**
   * What the entry of user `uid` holds after the goals `data`: it exists iff
   * some goal belongs to the user, and then counts that user's goals, adds up
   * their uncapped progress and counts those whose rounded progress reaches 100.
   */
  predicate Meaning(data: seq<Goal>, uid: string) {
    var k := EntryIndex(Tally(data), uid);
    (k >= 0 <==> Count(data, Owned(uid)) > 0)
    && (k >= 0 ==> TalliedRight(data, uid, Tally(data)[k]))
  }

  lemma {:induction false} TallyMeaning(data: seq<Goal>, uid: string)
    requires uid != ""
    ensures Meaning(data, uid)
  {
    if data != [] {
      var init := data[..|data| - 1];
      var g := data[|data| - 1];
      assert data == init + [g];
      TallyMeaning(init, uid);
      if Owned(uid)(g) {
        MeaningOwn(init, g, uid);
      } else {
        MeaningOther(init, g, uid);
      }
    }
  }

  lemma MeaningOwn(init: seq<Goal>, g: Goal, uid: string)
    requires uid != "" && Owned(uid)(g) && Meaning(init, uid)
    ensures Meaning(init + [g], uid)
  {
    var before := Tally(init);
    TallySnoc(init, g);
    assert Tally(init + [g]) == AddToTally(before, g, uid);
    AddToTallyOwn(before, g, uid);
    AddedRight(init, g, uid);
  }

  /** The entry `Added` builds for one more goal of `uid` holds that user's totals. */
  lemma AddedRight(init: seq<Goal>, g: Goal, uid: string)
    requires uid != "" && Owned(uid)(g) && Meaning(init, uid)
    ensures TalliedRight(init + [g], uid, Added(Tally(init), g, uid))
    ensures Count(init + [g], Owned(uid)) > 0
  {
    TotalsSnoc(init, g, uid);
    FirstOwnedSnoc(init, g, uid);
    var p := RankProgress(g);
    assert OwnedReached(uid)(g) == (p >= 100);
    if EntryIndex(Tally(init), uid) == -1 {
      FirstOwn(init, g, uid);
    }
  }

  /** The first goal of `uid` after one more goal of that user: the old first one, or `g` if there was none. */
  lemma FirstOwnedSnoc(init: seq<Goal>, g: Goal, uid: string)
    requires Owned(uid)(g)
    ensures Filter(init + [g], Owned(uid)) == Filter(init, Owned(uid)) + [g]
    ensures Filter(init + [g], Owned(uid))[0] == if Count(init, Owned(uid)) > 0 then Filter(init, Owned(uid))[0] else g
  {
    FilterSnoc(init, g, Owned(uid));
  }

  /** The user had no goal before `g`, so all of the user's totals are those of `g` alone. */
  lemma FirstOwn(init: seq<Goal>, g: Goal, uid: string)
    requires Meaning(init, uid) && EntryIndex(Tally(init), uid) == -1
    ensures Count(init, Owned(uid)) == 0 && Count(init, OwnedReached(uid)) == 0
    ensures ProgressTotal(Filter(init, Owned(uid))) == 0
  {
    assert Filter(init, Owned(uid)) == [];
    CountImplies(init, OwnedReached(uid), Owned(uid));
  }

  lemma MeaningOther(init: seq<Goal>, g: Goal, uid: string)
    requires !Owned(uid)(g) && Meaning(init, uid)
    ensures Meaning(init + [g], uid)
  {
    TallySnoc(init, g);
    TotalsSnoc(init, g, uid);
    FilterSnoc(init, g, Owned(uid));
    assert Filter(init + [g], Owned(uid)) == Filter(init, Owned(uid));
    if HasOwner(g) {
      AddToTallyOther(Tally(init), g, g.userId.value, uid);
    }
  }

  /** The `forEach` filling the ranking map, one goal at a time. */
  method TallyGoals(data: seq<Goal>) returns (entries: seq<UserTally>)
    ensures entries == Tally(data)
  {
    entries := [];
    var i := 0;
    while i < |data|
      invariant 0 <= i <= |data|
      invariant entries == Tally(data[..i])
    {
      var g := data[i];
      assert data[..i + 1] == data[..i] + [g];
      TallySnoc(data[..i], g);
      if HasOwner(g) {
        entries := AddGoal(entries, g, g.userId.value);
      }
      i := i + 1;
    }
    assert data[..|data|] == data;
  }

  /** One pass of the `forEach` body: the user's entry is created with its name if missing, then counts the goal. */
  method AddGoal(entries: seq<UserTally>, g: Goal, uid: string) returns (r: seq<UserTally>)
    ensures r == AddToTally(entries, g, uid)
  {
    r := entries;
    var k := EntryIndex(r, uid);
    var p := RankProgress(g);
    var empty := UserTally(uid, Text.OrDefault(g.assigneeName, "Sem Nome"), 0, 0, 0);
    if k == -1 {
      r := r + [empty];
      k := |r| - 1;
    }
    var u := r[k];
    r := r[k := u.(totalProgress := u.totalProgress + p, goalCount := u.goalCount + 1,
                   completedCount := u.completedCount + (if p >= 100 then 1 else 0))];
    if EntryIndex(entries, uid) == -1 {
      UpdateLast(entries, empty, NewTally(g, uid));
    }
  }

  /** Replacing the last entry of a list just extended is extending it with the replacement. */
  lemma UpdateLast(s: seq<UserTally>, a: UserTally, b: UserTally)
    ensures (s + [a])[|s| := b] == s + [b]
  {
  }

  /** A ranked user: the tally with its rounded average. */
  datatype Ranked = Ranked(user: UserTally, average: int)

  /** `Math.round(totalProgress / goalCount)`; every tallied user has at least one goal. */
  function Average(t: UserTally): (a: int)
    ensures t.goalCount == 0 ==> a == 0
    ensures t.goalCount > 0 ==> a as real - 0.5 <= t.totalProgress as real / t.goalCount as real < a as real + 0.5
    ensures 0 <= t.totalProgress <= 100 * t.goalCount ==> 0 <= a <= 100
  {
    if t.goalCount == 0 then 0
    else
      var x := t.totalProgress as real / t.goalCount as real;
      assert 0 <= t.totalProgress <= 100 * t.goalCount ==> 0 <= Round(x) <= 100 by {
        if 0 <= t.totalProgress <= 100 * t.goalCount {
          MeanPercentBounds(t.totalProgress, t.goalCount);
        }
      }
      Round(x)
  }

  /** A ranked entry keeps its tally and carries that tally's rounded average. */
  function Rank(t: UserTally): (r: Ranked)
    ensures r.user == t && r.average == Average(t)
  {
    Ranked(t, Average(t))
  }

  /** The sort key of `(a, b) => b.average - a.average`: higher averages first, ties in map order. */
  function ByAverage(r: Ranked): (int, int) {
    (-r.average, 0)
  }

  /** `rankList`: every tallied user once, ordered by average, highest first. */
  function Rankings(entries: seq<UserTally>): (r: seq<Ranked>)
    ensures multiset(r) == multiset(Map(entries, Rank))
  {
    SortBy(Map(entries, Rank), ByAverage)
  }

  lemma RankingsDescending(entries: seq<UserTally>)
    ensures forall i, j :: 0 <= i < j < |Rankings(entries)| ==>
      Rankings(entries)[i].average >= Rankings(entries)[j].average
  {
    SortBySorted(Map(entries, Rank), ByAverage);
  }

  // ----------------------------------------------------------- statistics

  datatype GoalStats = GoalStats(
    totalGoals: nat, completedGoals: nat, totalTarget: int, totalCurrent: int,
    averageProgress: int, topPerformer: Option<Ranked>)

  const EmptyStats := GoalStats(0, 0, 0, 0, 0, None)

  function CurrentTotal(gs: seq<Goal>): int {
    if gs == [] then 0 else gs[0].current.GetOr(0) + CurrentTotal(gs[1..])
  }

  function TargetTotal(gs: seq<Goal>): int {
    if gs == [] then 0 else gs[0].target + TargetTotal(gs[1..])
  }

  function CappedTotal(gs: seq<Goal>): (n: int)
    ensures n <= 100 * |gs|
    ensures (forall i :: 0 <= i < |gs| ==> gs[i].current.GetOr(0) >= 0 && gs[i].target >= 0) ==> n >= 0
  {
    if gs == [] then 0 else CappedProgress(gs[0]) + CappedTotal(gs[1..])
  }

  /** The headline numbers of a non-empty goal list, given its ranking. */
  function StatsOf(data: seq<Goal>, rankings: seq<Ranked>): (s: GoalStats)
    requires data != []
    ensures s.totalGoals == |data| && s.completedGoals == Count(data, Completed)
    ensures s.completedGoals <= s.totalGoals
    ensures s.totalTarget == TargetTotal(data) && s.totalCurrent == CurrentTotal(data)
    ensures s.averageProgress == Round(CappedTotal(data) as real / |data| as real)
    ensures s.topPerformer == (if rankings == [] then None else Some(rankings[0]))
  {
    GoalStats(|data|, Count(data, Completed), TargetTotal(data), CurrentTotal(data),
              Round(CappedTotal(data) as real / |data| as real), if rankings == [] then None else Some(rankings[0]))
  }

  /** With non-negative values the average progress stays between 0 and 100. */
  lemma AverageProgressBounds(data: seq<Goal>, rankings: seq<Ranked>)
    requires data != []
    requires forall i :: 0 <= i < |data| ==> data[i].current.GetOr(0) >= 0 && data[i].target >= 0
    ensures 0 <= StatsOf(data, rankings).averageProgress <= 100
  {
    MeanPercentBounds(CappedTotal(data), |data|);
  }

  /** The top performer has the highest average of all ranked users. */
  lemma TopPerformerIsBest(data: seq<Goal>)
    requires data != []
    ensures var rs := Rankings(Tally(data));
      var top := StatsOf(data, rs).topPerformer;
      (top.None? <==> forall i :: 0 <= i < |data| ==> !HasOwner(data[i]))
      && (top.Some? ==> forall j :: 0 <= j < |rs| ==> top.value.average >= rs[j].average)
  {
    RankingsDescending(Tally(data));
    TallyEmpty(data);
  }

  /**
   * The two completion counts differ: 199 of 200 rounds to 100%, so it counts
   * as completed for the user's ranking but not in the headline.
   */
  lemma RoundedCompletionDiffers()
    ensures var g := Goal("g", "Reuniões Agendadas", None, Some("u"), None, Some(199), 200);
      RankProgress(g) >= 100 && !Completed(g)
  {
    var g := Goal("g", "Reuniões Agendadas", None, Some("u"), None, Some(199), 200);
    assert 199.0 / 200.0 * 100.0 == 99.5;
  }

  /** The page's state: the goals, the headline statistics and the ranking. */
  class GoalsView {
    var goals: seq<Goal>
    var stats: GoalStats
    var rankings: seq<Ranked>
    var currentUserId: Option<string>

    constructor ()
      ensures goals == [] && stats == EmptyStats && rankings == [] && currentUserId == None
    {
      goals := [];
      stats := EmptyStats;
      rankings := [];
      currentUserId := None;
    }

    /**
     * `calculateStats`: an empty list zeroes the statistics and leaves the
     * ranking as it was; otherwise the goals are tallied per user in one pass.
     */
    method CalculateStats(data: seq<Goal>)
      modifies this
      ensures data == [] ==> stats == EmptyStats && rankings == old(rankings)
      ensures data != [] ==> rankings == Rankings(Tally(data)) && stats == StatsOf(data, rankings)
      ensures goals == old(goals) && currentUserId == old(currentUserId)
    {
      if |data| == 0 {
        stats := EmptyStats;
        return;
      }
      var entries := TallyGoals(data);
      rankings := Rankings(entries);
      stats := StatsOf(data, rankings);
    }

    /** `fetchGoals` once the signed-in user and the rows are known. */
    method Load(user: string, data: seq<Goal>)
      modifies this
      ensures currentUserId == Some(user) && goals == data
      ensures data == [] ==> stats == EmptyStats && rankings == old(rankings)
      ensures data != [] ==> rankings == Rankings(Tally(data)) && stats == StatsOf(data, rankings)
    {
      currentUserId := Some(user);
      goals := data;
      CalculateStats(data);
    }
  }

  // ------------------------------------------------------ list and badges

  /** The list filter: 'mine' keeps the signed-in user's goals, 'general' the team goals, anything else all. */
  predicate Listed(filter: string, currentUserId: Option<string>, g: Goal) {
    if filter == "mine" then g.userId == currentUserId
    else if filter == "general" then g.userId.None?
    else true
  }

  function ListedGoals(goals: seq<Goal>, filter: string, currentUserId: Option<string>): (r: seq<Goal>)
    ensures forall i :: 0 <= i < |r| ==> r[i] in goals && Listed(filter, currentUserId, r[i])
    ensures forall i :: 0 <= i < |goals| && Listed(filter, currentUserId, goals[i]) ==> goals[i] in r
  {
    FilterKeeps(goals, (g: Goal) => Listed(filter, currentUserId, g));
    FilterComplete(goals, (g: Goal) => Listed(filter, currentUserId, g));
    Filter(goals, (g: Goal) => Listed(filter, currentUserId, g))
  }

  /** For a signed-in user, 'mine' and 'general' never list the same goal. */
  lemma MineAndGeneralDisjoint(goals: seq<Goal>, user: string)
    ensures |ListedGoals(goals, "mine", Some(user))| + |ListedGoals(goals, "general", Some(user))| <= |goals|
  {
    CountDisjoint(goals, (g: Goal) => Listed("mine", Some(user), g), (g: Goal) => Listed("general", Some(user), g));
  }

  /** The ranking badge of an average. */
  function Badge(average: int): (text: string)
    ensures average >= 100 ==> text == "Excelente"
    ensures 75 <= average < 100 ==> text == "Bom"
    ensures 50 <= average < 75 ==> text == "Normal"
    ensures average < 50 ==> text == "Atenção"
  {
    if average >= 100 then "Excelente"
    else if average >= 75 then "Bom"
    else if average < 50 then "Atenção"
    else "Normal"
  }

  /** A higher average never shows a worse badge. */
  lemma BadgeMonotone(a: int, b: int)
    requires a <= b
    ensures BadgeRank(Badge(a)) <= BadgeRank(Badge(b))
  {
  }

  function BadgeRank(text: string): (n: int)
    ensures 0 <= n <= 3
  {
    if text == "Excelente" then 3 else if text == "Bom" then 2 else if text == "Normal" then 1 else 0
  }
}
