/**
 * The sharing leaderboard (src/components/sharing/SocialLeaderboard.tsx).
 * Rows are rendered in the order of the list the component holds, the
 * position being the index plus one; the first three rows are highlighted
 * and get a trophy, a medal and an award, the others "#position". The
 * list is never sorted.
 */
module SocialLeaderboard {
  import opened Wrappers

  datatype Profile = Profile(username: string, avatarUrl: Option<string>, level: int)
  datatype Entry = Entry(userId: string, shareCount: int, profile: Profile)

  /** `getPositionIcon`'s cases: three icons, or the position as text. */
  datatype Icon = Trophy | Medal | Award | Rank(position: int)

  const LegendaryBadge: string := "Compartilhador Lendário"
  const InspiringBadge: string := "Inspirador Social"
  const MotivatorBadge: string := "Motivador"
  const TopTenBadge: string := "Top 10"
  const ActiveBadge: string := "Ativo"

  function PositionIcon(position: int): (icon: Icon)
    ensures icon.Rank? <==> position !in {1, 2, 3}
    ensures icon.Rank? ==> icon.position == position
    ensures position == 1 ==> icon == Trophy
    ensures position == 2 ==> icon == Medal
    ensures position == 3 ==> icon == Award
  {
    match position
    case 1 => Trophy
    case 2 => Medal
    case 3 => Award
    case _ => Rank(position)
  }

  function PositionBadge(position: int): (badge: string)
    ensures position == 1 ==> badge == LegendaryBadge
    ensures position == 2 ==> badge == InspiringBadge
    ensures position == 3 ==> badge == MotivatorBadge
    ensures position !in {1, 2, 3} ==> (badge == TopTenBadge <==> position <= 10)
    ensures position !in {1, 2, 3} ==> (badge == ActiveBadge <==> position > 10)
  {
    match position
    case 1 => LegendaryBadge
    case 2 => InspiringBadge
    case 3 => MotivatorBadge
    case _ => if position <= 10 then TopTenBadge else ActiveBadge
  }

  /** One rendered row. */
  datatype Row = Row(entry: Entry, position: int, highlighted: bool, icon: Icon, badge: string)

  function MakeRow(entry: Entry, position: int): Row {
    Row(entry, position, position <= 3, PositionIcon(position), PositionBadge(position))
  }

  /** `leaderboard.map((entry, index) => …)` with `position = index + 1`. */
  function Rows(entries: seq<Entry>): (rows: seq<Row>)
    ensures |rows| == |entries|
    ensures forall i :: 0 <= i < |rows| ==> rows[i].entry == entries[i] && rows[i].position == i + 1
    ensures forall i :: 0 <= i < |rows| ==> rows[i].badge == PositionBadge(i + 1)
    ensures forall i :: 0 <= i < |rows| ==> (rows[i].highlighted <==> i < 3)
    ensures forall i :: 0 <= i < |rows| ==> (rows[i].highlighted <==> !rows[i].icon.Rank?)
    ensures forall i :: 0 <= i < |rows| ==> rows[i].icon == PositionIcon(i + 1)
  {
    seq(|entries|, i requires 0 <= i < |entries| => MakeRow(entries[i], i + 1))
  }

  /** Positions run 1..n in list order, so no two rows share one. */
  lemma PositionsStrictlyIncrease(entries: seq<Entry>)
    ensures forall i, j :: 0 <= i < j < |entries| ==> 1 <= Rows(entries)[i].position < Rows(entries)[j].position <= |entries|
  {
    var rows := Rows(entries);
    forall i, j | 0 <= i < j < |entries|
      ensures 1 <= rows[i].position < rows[j].position <= |entries|
    {
      assert rows[i].position == i + 1 && rows[j].position == j + 1;
    }
  }

  /** Rank is list order: swapping two entries swaps their rows' entries and nothing else moves. */
  lemma RankFollowsInputOrder(entries: seq<Entry>, i: nat, j: nat)
    requires i < j < |entries|
    ensures var swapped := entries[i := entries[j]][j := entries[i]];
            Rows(swapped)[i].entry == entries[j] && Rows(swapped)[j].entry == entries[i] &&
            Rows(swapped)[i].position == i + 1 && Rows(swapped)[j].position == j + 1
  {
  }

  const MockData: seq<Entry> := [
    Entry("1", 47, Profile("jejummaster", Some("https://picsum.photos/100/100?random=1"), 25)),
    Entry("2", 35, Profile("healthwarrior", Some("https://picsum.photos/100/100?random=2"), 18)),
    Entry("3", 28, Profile("fastingpro", Some("https://picsum.photos/100/100?random=3"), 22)),
    Entry("4", 22, Profile("zenmaster", None, 15)),
    Entry("5", 19, Profile("wellness_life", None, 12))
  ]

  /** The mock list happens to be ordered by share count, so its ranks agree with the counts. */
  lemma MockDataRanksByShares()
    ensures forall i, j :: 0 <= i < j < |MockData| ==> MockData[i].shareCount > MockData[j].shareCount
    ensures Rows(MockData)[0].entry.profile.username == "jejummaster" && Rows(MockData)[0].badge == LegendaryBadge
    ensures Rows(MockData)[4].badge == TopTenBadge && !Rows(MockData)[4].highlighted
  {
  }
}
