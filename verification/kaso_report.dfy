/** The guild summary behind the activity check: per-channel counts ranked by
    activity, the guild's levels, the top-N entries with their share of the
    traffic, and the length-limited joining of the embed's field lines. */
module KasoReport {
  import opened Common
  import opened Sorting
  import opened KasoStore
  import opened KasoLevel

  /** `"\n".join(lines)` */
  function JoinLines(lines: seq<string>): string
    decreases |lines|
  {
    if |lines| == 0 then []
    else if |lines| == 1 then lines[0]
    else JoinLines(lines[..|lines| - 1]) + "\n" + lines[|lines| - 1]
  }

  /** Joining one more line adds the newline and the line. */
  lemma JoinLinesStep(lines: seq<string>, j: nat)
    requires 1 <= j < |lines|
    ensures JoinLines(lines[..j + 1]) == JoinLines(lines[..j]) + "\n" + lines[j]
  {
    assert lines[..j + 1][..j] == lines[..j];
  }

  /** Joining a longer prefix never gives a shorter text. */
  lemma {:induction false} JoinLinesGrows(lines: seq<string>, i: nat, j: nat)
    requires 1 <= i <= j <= |lines|
    ensures |JoinLines(lines[..i])| + (j - i) <= |JoinLines(lines[..j])|
    decreases j - i
  {
    if i < j {
      JoinLinesGrows(lines, i, j - 1);
      JoinLinesStep(lines, j - 1);
    }
  }

  /** The summary appended when lines are dropped. */
  function MoreSuffix(remaining: int): string {
    "\n...and " + IntToString(remaining) + " more"
  }

  /** The number of leading lines kept: the longest prefix whose joined text
      fits the limit, and always at least the first line. */
  function KeptLines(lines: seq<string>, limit: int, j: nat): (k: nat)
    requires 1 <= j <= |lines|
    ensures 1 <= k <= j
    ensures k == 1 || |JoinLines(lines[..k])| <= limit
  {
    if j == 1 || |JoinLines(lines[..j])| <= limit then j else KeptLines(lines, limit, j - 1)
  }

  /** What `_join_lines_with_limit` returns, stated without its loop: the
      longest prefix that fits, then the "...and N more" note when lines were
      dropped and the note fits too. */
  function JoinedWithinLimit(lines: seq<string>, limit: int): string {
    if lines == [] then []
    else
      var k := KeptLines(lines, limit, |lines|);
      var head := JoinLines(lines[..k]);
      if k < |lines| && |head| + |MoreSuffix(|lines| - k)| <= limit
      then head + MoreSuffix(|lines| - k)
      else head
  }

  lemma {:induction false} KeptLinesIs(lines: seq<string>, limit: int, i: nat, j: nat)
    requires 1 <= i <= j <= |lines|
    requires i == 1 || |JoinLines(lines[..i])| <= limit
    requires forall m :: i < m <= j ==> |JoinLines(lines[..m])| > limit
    ensures KeptLines(lines, limit, j) == i
    decreases j
  {
    if j > i {
      KeptLinesIs(lines, limit, i, j - 1);
    }
  }

  /** `_join_lines_with_limit`: greedily appends lines while they fit. When a
      line does not fit, the "...and N more" note is appended if it fits and
      the loop stops. Only the first line may exceed the limit. */
  method JoinLinesWithLimit(lines: seq<string>, limit: int) returns (out: string)
    ensures out == JoinedWithinLimit(lines, limit)
    ensures lines != [] ==> IsPrefix(lines[0], out)
    ensures lines != [] && |lines[0]| <= limit ==> |out| <= limit
    ensures lines != [] && |JoinLines(lines)| <= limit ==> out == JoinLines(lines)
  {
    if lines == [] {
      return [];
    }
    out := lines[0];
    assert lines[..1] == [lines[0]];
    var i := 1;
    while i < |lines| && |out| + 1 + |lines[i]| <= limit
      invariant 1 <= i <= |lines|
      invariant out == JoinLines(lines[..i])
      invariant i == 1 || |out| <= limit
      decreases |lines| - i
    {
      JoinLinesStep(lines, i);
      out := out + "\n" + lines[i];
      i := i + 1;
    }
    StoppedAt(lines, limit, i);
    if i < |lines| {
      var suffix := MoreSuffix(|lines| - i);
      if |out| + |suffix| <= limit {
        out := out + suffix;
      }
    } else {
      assert lines[..i] == lines;
    }
    JoinedFacts(lines, limit);
  }

  /** Where the greedy loop stops is the longest prefix that fits. */
  lemma StoppedAt(lines: seq<string>, limit: int, i: nat)
    requires 1 <= i <= |lines|
    requires i == 1 || |JoinLines(lines[..i])| <= limit
    requires i < |lines| ==> |JoinLines(lines[..i])| + 1 + |lines[i]| > limit
    ensures KeptLines(lines, limit, |lines|) == i
  {
    if i < |lines| {
      JoinLinesStep(lines, i);
      forall m | i < m <= |lines| ensures |JoinLines(lines[..m])| > limit {
        JoinLinesGrows(lines, i + 1, m);
      }
    }
    KeptLinesIs(lines, limit, i, |lines|);
  }

  /** The first line always leads, and the text fits whenever the first line
      does; when everything fits, everything is joined. */
  lemma JoinedFacts(lines: seq<string>, limit: int)
    requires lines != []
    ensures IsPrefix(lines[0], JoinedWithinLimit(lines, limit))
    ensures |lines[0]| <= limit ==> |JoinedWithinLimit(lines, limit)| <= limit
    ensures |JoinLines(lines)| <= limit ==> JoinedWithinLimit(lines, limit) == JoinLines(lines)
  {
    var k := KeptLines(lines, limit, |lines|);
    var head := JoinLines(lines[..k]);
    JoinLinesPrefix(lines, k);
    assert lines[..1] == [lines[0]];
    if |lines[0]| <= limit {
      assert |head| <= limit;
    }
    if |JoinLines(lines)| <= limit {
      assert lines[..|lines|] == lines;
      assert k == |lines|;
    }
  }

  lemma {:induction false} JoinLinesPrefix(lines: seq<string>, k: nat)
    requires 1 <= k <= |lines|
    ensures IsPrefix(lines[0], JoinLines(lines[..k]))
    decreases k
  {
    if k == 1 {
      assert lines[..1] == [lines[0]];
    } else {
      JoinLinesPrefix(lines, k - 1);
      JoinLinesStep(lines, k - 1);
    }
  }

  datatype ChannelCount = ChannelCount(channel: string, count: nat)

  function CountKey(c: ChannelCount): int { c.count }

  /** One "#i" line of the top-channels field. */
  datatype TopEntry = TopEntry(rank: nat, channel: string, count: nat, percent: real, level: int, bar: string)

  datatype Summary = Summary(
    ranked: seq<ChannelCount>,      // every stored channel, busiest first
    total: nat,                     // messages in the period, all channels
    top: seq<TopEntry>,             // `counts[:top]`
    channelsTracked: nat,
    guildLevel: int,                // level of the guild total
    perChannelLevel: int,           // level of the per-channel average
    activity: int,                  // `11 - guildLevel`
    color: int,
    listed: seq<ChannelCount>)      // `counts[:50]` for the channel list

  /** The guild's channel ids in the map's iteration order. */
  predicate IsKeyOrder(s: Store, guild: string, order: seq<string>) {
    && (forall i, j :: 0 <= i < j < |order| ==> order[i] != order[j])
    && (set c | c in order) == (if guild in s then s[guild].Keys else {})
  }

  /** The per-channel counts in iteration order: every stored channel of the
      guild exactly once, each with its count for the period. */
  function ChannelCounts(s: Store, guild: string, cutoff: string, order: seq<string>): (r: seq<ChannelCount>)
    requires IsKeyOrder(s, guild, order)
    ensures |r| == |order| && forall i :: 0 <= i < |r| ==> r[i].channel == order[i]
    ensures (set i | 0 <= i < |r| :: r[i].channel) == (if guild in s then s[guild].Keys else {})
    ensures forall i, j :: 0 <= i < j < |r| ==> r[i].channel != r[j].channel
    ensures forall i :: 0 <= i < |r| ==>
      r[i].count == CountMessagesInPeriod(s, guild, r[i].channel, cutoff)
  {
    KeyOrderChannels(s, guild, order);
    seq(|order|, i requires 0 <= i < |order| =>
      ChannelCount(order[i], CountMessagesInPeriod(s, guild, order[i], cutoff)))
  }

  lemma KeyOrderChannels(s: Store, guild: string, order: seq<string>)
    requires IsKeyOrder(s, guild, order)
    ensures (set i | 0 <= i < |order| :: order[i]) == (if guild in s then s[guild].Keys else {})
  {
    assert (set i | 0 <= i < |order| :: order[i]) == (set c | c in order);
  }

  function Percent(count: nat, total: nat): real {
    if total > 0 then count as real / total as real * 100.0 else 0.0
  }

  function TopEntries(ranked: seq<ChannelCount>, total: nat, days: int, top: int): (r: seq<TopEntry>)
    ensures |r| == |Take(ranked, top)|
  {
    var shown := Take(ranked, top);
    seq(|shown|, i requires 0 <= i < |shown| =>
      var c := shown[i];
      var pct := Percent(c.count, total);
      TopEntry(i + 1, c.channel, c.count, pct, ComputeLevel(c.count, days), DrawActivityBar(pct, 8)))
  }

  /** `int(total / n)` for the channel average, 0 without channels. */
  function PerChannelAverage(total: nat, n: nat): (avg: nat)
    ensures avg <= total
    ensures n > 0 ==> avg * n <= total < (avg + 1) * n
  {
    if n > 0 then total / n else 0
  }

  /** `build_guild_summary_embed` without the text formatting: the counts of
      the guild's stored channels over the period ending now (`cutoff` is the
      start of the period), ranked busiest first with ties in iteration
      order, and the figures derived from them. */
  function Summarize(s: Store, guild: string, cutoff: string, days: int, top: int,
                     order: seq<string>): (r: Summary)
    requires IsKeyOrder(s, guild, order)
    ensures r.channelsTracked == |r.ranked| == |order|
    ensures r.total == SumKeys(r.ranked, CountKey)
    ensures r.guildLevel == ComputeLevel(r.total, days)
    ensures r.perChannelLevel == ComputeLevel(PerChannelAverage(r.total, |r.ranked|), days)
    ensures r.top == TopEntries(r.ranked, r.total, days, top)
    ensures r.listed == Take(r.ranked, 50)
    ensures 1 <= r.activity <= 10
    ensures r.activity == 11 - r.guildLevel
    ensures r.color == LevelToColor(r.guildLevel)
    ensures |r.top| <= |r.ranked| && |r.listed| <= 50
  {
    var counts := ChannelCounts(s, guild, cutoff, order);
    var ranked := SortDesc(counts, CountKey);
    var total := SumKeys(ranked, CountKey);
    var n := |ranked|;
    assert total >= 0 by {
      assert forall j :: 0 <= j < |ranked| ==> CountKey(ranked[j]) >= 0;
      SumKeysNonNegative(ranked, CountKey);
    }
    var avg := PerChannelAverage(total, n);
    var level := ComputeLevel(total, days);
    Summary(ranked, total, TopEntries(ranked, total, days, top), n, level,
            ComputeLevel(avg, days), 11 - level, LevelToColor(level), Take(ranked, 50))
  }

  /** The ranking holds every stored channel once, with the count
      `count_messages_in_period` gives it, busiest first; channels with equal
      counts keep their iteration order; the total is the sum over all
      channels. */
  lemma SummaryRanking(s: Store, guild: string, cutoff: string, days: int, top: int,
                       order: seq<string>)
    requires IsKeyOrder(s, guild, order)
    ensures var r := Summarize(s, guild, cutoff, days, top, order);
      && multiset(r.ranked) == multiset(ChannelCounts(s, guild, cutoff, order))
      && SortedDesc(r.ranked, CountKey)
      && (forall k :: WithKey(r.ranked, CountKey, k) == WithKey(ChannelCounts(s, guild, cutoff, order), CountKey, k))
      && r.total == SumKeys(ChannelCounts(s, guild, cutoff, order), CountKey)
  {
    var counts := ChannelCounts(s, guild, cutoff, order);
    SortDescSorted(counts, CountKey);
    forall k {
      SortDescStable(counts, CountKey, k);
    }
    SortDescSum(counts, CountKey);
  }

  /** A count's share of a total it is part of lies between 0 and 100. */
  lemma PercentInRange(ranked: seq<ChannelCount>, i: int)
    requires 0 <= i < |ranked|
    requires SumKeys(ranked, CountKey) >= 0
    ensures 0.0 <= Percent(ranked[i].count, SumKeys(ranked, CountKey) as nat) <= 100.0
  {
    var total := SumKeys(ranked, CountKey);
    assert forall j :: 0 <= j < |ranked| ==> CountKey(ranked[j]) >= 0;
    SumKeysBounds(ranked, CountKey, i);
    PercentOfPart(ranked[i].count, total);
  }

  lemma PercentOfPart(count: nat, total: nat)
    requires count <= total
    ensures 0.0 <= Percent(count, total) <= 100.0
  {
    if total > 0 {
      var c := count as real;
      var t := total as real;
      assert c / t <= 1.0;
    }
  }

  /** Each top entry is the channel at that rank; its percentage is its count
      as a share of the guild total (0 when the total is 0) and lies between
      0 and 100; its level is the level of its own count; its bar is the
      8-cell bar of that percentage. */
  lemma SummaryTopEntries(s: Store, guild: string, cutoff: string, days: int, top: int,
                          order: seq<string>, i: int)
    requires IsKeyOrder(s, guild, order)
    requires 0 <= i < |Summarize(s, guild, cutoff, days, top, order).top|
    ensures var r := Summarize(s, guild, cutoff, days, top, order);
      && r.top[i].rank == i + 1
      && r.top[i].channel == r.ranked[i].channel
      && r.top[i].count == r.ranked[i].count
      && r.top[i].percent == Percent(r.top[i].count, r.total)
      && 0.0 <= r.top[i].percent <= 100.0
      && r.top[i].level == ComputeLevel(r.ranked[i].count, days)
      && r.top[i].bar == DrawActivityBar(r.top[i].percent, 8)
  {
    var r := Summarize(s, guild, cutoff, days, top, order);
    TopEntryAt(r.ranked, r.total, days, top, i);
    PercentInRange(r.ranked, i);
  }

  lemma TopEntryAt(ranked: seq<ChannelCount>, total: nat, days: int, top: int, i: int)
    requires 0 <= i < |TopEntries(ranked, total, days, top)|
    ensures i < |ranked|
    ensures var e := TopEntries(ranked, total, days, top)[i];
      && e.rank == i + 1 && e.channel == ranked[i].channel && e.count == ranked[i].count
      && e.percent == Percent(ranked[i].count, total)
      && e.level == ComputeLevel(ranked[i].count, days)
      && e.bar == DrawActivityBar(e.percent, 8)
  {
    var shown := Take(ranked, top);
    assert shown[i] == ranked[i];
  }

  /** `cnt / total * 100`: the percentage is the count's share of the total,
      and 0 when the total is 0. */
  lemma PercentOfTotal(p: real, count: nat, total: nat)
    requires p == Percent(count, total)
    ensures total > 0 ==> p * total as real == count as real * 100.0
    ensures total == 0 ==> p == 0.0
  {
    if total > 0 {
      var c := count as real;
      var t := total as real;
      assert c / t * 100.0 * t == c * 100.0;
    }
  }

  /** The guild total is never quieter than the per-channel average: the
      guild level is at most the per-channel level. */
  lemma GuildLevelAtMostPerChannel(s: Store, guild: string, cutoff: string, days: int, top: int,
                                   order: seq<string>)
    requires IsKeyOrder(s, guild, order)
    ensures var r := Summarize(s, guild, cutoff, days, top, order);
      r.guildLevel <= r.perChannelLevel
  {
    var r := Summarize(s, guild, cutoff, days, top, order);
    var avg := PerChannelAverage(r.total, |r.ranked|);
    assert r.perChannelLevel == ComputeLevel(avg, days);
    MoreMessagesNoQuieter(avg, r.total, days);
  }

  /** With no traffic in the period every share is 0% and every bar is empty. */
  lemma QuietGuildSummary(s: Store, guild: string, cutoff: string, days: int, top: int,
                          order: seq<string>)
    requires IsKeyOrder(s, guild, order)
    requires Summarize(s, guild, cutoff, days, top, order).total == 0
    ensures var r := Summarize(s, guild, cutoff, days, top, order);
      && r.guildLevel == ComputeLevel(0, days)
      && forall i :: 0 <= i < |r.top| ==> r.top[i].percent == 0.0 && r.top[i].count == 0
  {
    var r := Summarize(s, guild, cutoff, days, top, order);
    forall i | 0 <= i < |r.top| ensures r.top[i].percent == 0.0 && r.top[i].count == 0 {
      SummaryTopEntries(s, guild, cutoff, days, top, order, i);
      assert forall j :: 0 <= j < |r.ranked| ==> CountKey(r.ranked[j]) >= 0;
      SumKeysBounds(r.ranked, CountKey, i);
    }
  }
}
