/** The message log behind the activity ("kaso") check: for every guild and
    channel, the ISO-8601 timestamps of the messages seen there. Timestamps
    are compared as Python compares strings. That is chronological only
    among strings of one shape: `isoformat` drops a zero microsecond part,
    and a message's creation time carries a `+00:00` suffix that
    `utcnow()` does not, so the model keeps the string order as written. */
module KasoStore {
  import opened Common

  /** Python's `a <= b` on `str`: code-point lexicographic order, a proper
      prefix being smaller. */
  predicate StrLe(a: string, b: string)
    decreases |a|
  {
    if a == [] then true
    else if b == [] then false
    else if a[0] != b[0] then a[0] < b[0]
    else StrLe(a[1..], b[1..])
  }

  lemma {:induction false} StrLeReflexive(a: string)
    ensures StrLe(a, a)
    decreases |a|
  {
    if a != [] {
      StrLeReflexive(a[1..]);
    }
  }

  lemma {:induction false} StrLeTransitive(a: string, b: string, c: string)
    requires StrLe(a, b) && StrLe(b, c)
    ensures StrLe(a, c)
    decreases |a|
  {
    if a != [] && b != [] && c != [] && a[0] == b[0] && b[0] == c[0] {
      StrLeTransitive(a[1..], b[1..], c[1..]);
    }
  }

  lemma {:induction false} StrLeTotal(a: string, b: string)
    ensures StrLe(a, b) || StrLe(b, a)
    decreases |a|
  {
    if a != [] && b != [] && a[0] == b[0] {
      StrLeTotal(a[1..], b[1..]);
    }
  }

  lemma {:induction false} StrLeAntisymmetric(a: string, b: string)
    requires StrLe(a, b) && StrLe(b, a)
    ensures a == b
    decreases |a|
  {
    if a != [] && b != [] {
      StrLeAntisymmetric(a[1..], b[1..]);
      assert a == [a[0]] + a[1..] && b == [b[0]] + b[1..];
    }
  }

  /** guild id -> channel id -> timestamps, oldest first. */
  type Store = map<string, map<string, seq<string>>>

  /** `kaso_data.get(guild, {}).get(channel, [])` */
  function Messages(s: Store, guild: string, channel: string): seq<string> {
    if guild in s && channel in s[guild] then s[guild][channel] else []
  }

  /** Records one message, creating the guild's and the channel's entries on
      first use. */
  function AddMessage(s: Store, guild: string, channel: string, ts: string): (r: Store)
    ensures guild in r && channel in r[guild]
    ensures Messages(r, guild, channel) == Messages(s, guild, channel) + [ts]
    ensures r.Keys == s.Keys + {guild}
    ensures r[guild].Keys == (if guild in s then s[guild].Keys else {}) + {channel}
    ensures forall g, c :: (g, c) != (guild, channel) ==> Messages(r, g, c) == Messages(s, g, c)
  {
    var chans := if guild in s then s[guild] else map[];
    var arr := if channel in chans then chans[channel] else [];
    s[guild := chans[channel := arr + [ts]]]
  }

  /** `[t for t in arr if t >= cutoff]` */
  function KeepSince(arr: seq<string>, cutoff: string): (r: seq<string>)
    ensures |r| <= |arr|
    ensures forall i :: 0 <= i < |r| ==> StrLe(cutoff, r[i])
  {
    if arr == [] then []
    else (if StrLe(cutoff, arr[0]) then [arr[0]] else []) + KeepSince(arr[1..], cutoff)
  }

  /** The number of timestamps with `t >= cutoff`. */
  function CountSince(arr: seq<string>, cutoff: string): nat {
    if arr == [] then 0
    else (if StrLe(cutoff, arr[0]) then 1 else 0) + CountSince(arr[1..], cutoff)
  }

  /** The number of timestamps with `start <= t <= end`. */
  function CountBetween(arr: seq<string>, start: string, end: string): nat {
    if arr == [] then 0
    else
      var here := if StrLe(start, arr[0]) && StrLe(arr[0], end) then 1 else 0;
      here + CountBetween(arr[1..], start, end)
  }

  /** `count_messages_in_period`: messages of one channel at or after the
      cutoff instant, 0 for an unknown guild or channel. */
  function CountMessagesInPeriod(s: Store, guild: string, channel: string, cutoff: string): (n: nat)
    ensures n == |KeepSince(Messages(s, guild, channel), cutoff)|
    ensures n <= |Messages(s, guild, channel)|
  {
    KeepSinceCount(Messages(s, guild, channel), cutoff);
    CountSince(Messages(s, guild, channel), cutoff)
  }

  /** `[t for t in arr if start <= t <= end]` */
  function KeepBetween(arr: seq<string>, start: string, end: string): (r: seq<string>)
    ensures |r| <= |arr|
    ensures forall i :: 0 <= i < |r| ==> StrLe(start, r[i]) && StrLe(r[i], end)
  {
    if arr == [] then []
    else
      var here := if StrLe(start, arr[0]) && StrLe(arr[0], end) then [arr[0]] else [];
      here + KeepBetween(arr[1..], start, end)
  }

  /** `count_messages_in_period_range`: messages with `start <= t <= end`,
      both ends included, 0 for an unknown guild or channel. */
  function CountMessagesInRange(s: Store, guild: string, channel: string, start: string, end: string): (n: nat)
    ensures n == |KeepBetween(Messages(s, guild, channel), start, end)|
    ensures guild !in s || channel !in s[guild] ==> n == 0
    ensures n <= CountMessagesInPeriod(s, guild, channel, start)
  {
    CountBetweenAtMostSince(Messages(s, guild, channel), start, end);
    KeepBetweenCount(Messages(s, guild, channel), start, end);
    CountBetween(Messages(s, guild, channel), start, end)
  }

  lemma {:induction false} KeepBetweenCount(arr: seq<string>, start: string, end: string)
    ensures |KeepBetween(arr, start, end)| == CountBetween(arr, start, end)
  {
    if arr != [] {
      KeepBetweenCount(arr[1..], start, end);
    }
  }

  /** A timestamp is counted in a range exactly when it is stored and lies
      between the two ends, both included. */
  lemma {:induction false} KeepBetweenMembers(arr: seq<string>, start: string, end: string, t: string)
    ensures t in KeepBetween(arr, start, end) <==> t in arr && StrLe(start, t) && StrLe(t, end)
  {
    if arr != [] {
      KeepBetweenMembers(arr[1..], start, end, t);
      assert arr == [arr[0]] + arr[1..];
    }
  }

  /** Range counts add up over appended messages. */
  lemma {:induction false} CountBetweenAppend(a: seq<string>, b: seq<string>, start: string, end: string)
    ensures CountBetween(a + b, start, end) == CountBetween(a, start, end) + CountBetween(b, start, end)
  {
    if a != [] {
      CountBetweenAppend(a[1..], b, start, end);
      assert (a + b)[1..] == a[1..] + b;
    } else {
      assert a + b == b;
    }
  }

  /** A range ending at or after every stored message counts what the period
      starting at `start` counts. */
  lemma {:induction false} CountBetweenUpToLatest(arr: seq<string>, start: string, end: string)
    requires forall i :: 0 <= i < |arr| ==> StrLe(arr[i], end)
    ensures CountBetween(arr, start, end) == CountSince(arr, start)
  {
    if arr != [] {
      assert StrLe(arr[0], end);
      CountBetweenUpToLatest(arr[1..], start, end);
    }
  }

  /** Recording a message adds one to a range count exactly when its
      timestamp lies inside the range, and leaves the counts of every other
      channel alone. */
  lemma RangeCountAfterAdd(s: Store, guild: string, channel: string, ts: string,
                           g: string, c: string, start: string, end: string)
    ensures CountMessagesInRange(AddMessage(s, guild, channel, ts), g, c, start, end)
         == CountMessagesInRange(s, g, c, start, end)
            + (if (g, c) == (guild, channel) && StrLe(start, ts) && StrLe(ts, end) then 1 else 0)
  {
    if (g, c) == (guild, channel) {
      CountBetweenAppend(Messages(s, g, c), [ts], start, end);
      assert [ts][1..] == [];
    }
  }

  /** Counting up to the latest stored message agrees with the period
      count. */
  lemma RangeUpToLatest(s: Store, guild: string, channel: string, start: string, end: string)
    requires forall t :: t in Messages(s, guild, channel) ==> StrLe(t, end)
    ensures CountMessagesInRange(s, guild, channel, start, end)
         == CountMessagesInPeriod(s, guild, channel, start)
  {
    var arr := Messages(s, guild, channel);
    forall i | 0 <= i < |arr| ensures StrLe(arr[i], end) {
      assert arr[i] in arr;
    }
    CountBetweenUpToLatest(arr, start, end);
  }

  lemma {:induction false} KeepSinceCount(arr: seq<string>, cutoff: string)
    ensures |KeepSince(arr, cutoff)| == CountSince(arr, cutoff)
  {
    if arr != [] {
      KeepSinceCount(arr[1..], cutoff);
    }
  }

  lemma {:induction false} CountBetweenAtMostSince(arr: seq<string>, start: string, end: string)
    ensures CountBetween(arr, start, end) <= CountSince(arr, start)
  {
    if arr != [] {
      CountBetweenAtMostSince(arr[1..], start, end);
    }
  }

  /** A timestamp survives the filter exactly when it is at or after the
      cutoff. */
  lemma {:induction false} KeepSinceMembers(arr: seq<string>, cutoff: string, t: string)
    ensures t in KeepSince(arr, cutoff) <==> t in arr && StrLe(cutoff, t)
  {
    if arr != [] {
      KeepSinceMembers(arr[1..], cutoff, t);
      assert arr == [arr[0]] + arr[1..];
    }
  }

  /** Filtering distributes over appending, so messages added after a prune
      are filtered independently of the older ones. */
  lemma {:induction false} KeepSinceAppend(a: seq<string>, b: seq<string>, cutoff: string)
    ensures KeepSince(a + b, cutoff) == KeepSince(a, cutoff) + KeepSince(b, cutoff)
  {
    if a != [] {
      KeepSinceAppend(a[1..], b, cutoff);
      assert (a + b)[1..] == a[1..] + b;
    } else {
      assert a + b == b;
    }
  }

  /** Filtering with a cutoff no earlier than the one already applied changes
      nothing more: pruning and then filtering with a later cutoff is the same
      as filtering with the later cutoff alone. */
  lemma {:induction false} KeepSinceLater(arr: seq<string>, early: string, late: string)
    requires StrLe(early, late)
    ensures KeepSince(KeepSince(arr, early), late) == KeepSince(arr, late)
  {
    if arr != [] {
      KeepSinceLater(arr[1..], early, late);
      if StrLe(late, arr[0]) {
        StrLeTransitive(early, late, arr[0]);
      }
      var k := if StrLe(early, arr[0]) then [arr[0]] else [];
      assert KeepSince(arr, early) == k + KeepSince(arr[1..], early);
      KeepSinceAppend(k, KeepSince(arr[1..], early), late);
    }
  }

  /** A later cutoff never counts more messages. */
  lemma {:induction false} CountSinceAntitone(arr: seq<string>, early: string, late: string)
    requires StrLe(early, late)
    ensures CountSince(arr, late) <= CountSince(arr, early)
  {
    if arr != [] {
      CountSinceAntitone(arr[1..], early, late);
      if StrLe(late, arr[0]) {
        StrLeTransitive(early, late, arr[0]);
      }
    }
  }

  /** Replaces every channel's list of the guild map `g` by its filtered form. */
  function PruneChannels(g: map<string, seq<string>>, cutoff: string): (r: map<string, seq<string>>)
    ensures r.Keys == g.Keys
    ensures forall c :: c in r ==> r[c] == KeepSince(g[c], cutoff)
  {
    map c | c in g :: KeepSince(g[c], cutoff)
  }

  /** `prune_old`: drops timestamps older than the cutoff, in one guild when a
      non-empty guild id is given and in every guild otherwise. Emptied
      channels keep their (empty) entry; an unknown guild changes nothing. */
  function PruneOld(s: Store, cutoff: string, guild: Option<string>): (r: Store)
    ensures r.Keys == s.Keys
    ensures forall g :: g in r ==> r[g].Keys == s[g].Keys
    ensures forall g, c :: Messages(r, g, c) == (
              if guild.None? || guild.value == [] || g == guild.value
              then KeepSince(Messages(s, g, c), cutoff)
              else Messages(s, g, c))
  {
    if guild.Some? && guild.value != [] then
      var gid := guild.value;
      if gid in s then s[gid := PruneChannels(s[gid], cutoff)] else s
    else
      map g | g in s :: PruneChannels(s[g], cutoff)
  }

  /** Pruning twice with the same cutoff is the same as pruning once. */
  lemma PruneOldIdempotent(s: Store, cutoff: string, guild: Option<string>)
    ensures PruneOld(PruneOld(s, cutoff, guild), cutoff, guild) == PruneOld(s, cutoff, guild)
  {
    StrLeReflexive(cutoff);
    var p := PruneOld(s, cutoff, guild);
    var q := PruneOld(p, cutoff, guild);
    forall g, c ensures Messages(q, g, c) == Messages(p, g, c) {
      KeepSinceLater(Messages(s, g, c), cutoff, cutoff);
    }
    StoreExtensional(q, p);
  }

  /** Pruning to the retention horizon does not change any count over a
      period that lies inside the horizon. */
  lemma PruneKeepsRecentCounts(s: Store, horizon: string, cutoff: string,
                               guild: Option<string>, g: string, c: string)
    requires StrLe(horizon, cutoff)
    ensures CountMessagesInPeriod(PruneOld(s, horizon, guild), g, c, cutoff)
         == CountMessagesInPeriod(s, g, c, cutoff)
  {
    KeepSinceLater(Messages(s, g, c), horizon, cutoff);
  }

  /** Two stores with the same guilds, the same channels and the same
      messages everywhere are equal. */
  lemma StoreExtensional(a: Store, b: Store)
    requires a.Keys == b.Keys
    requires forall g :: g in a ==> a[g].Keys == b[g].Keys
    requires forall g, c :: Messages(a, g, c) == Messages(b, g, c)
    ensures a == b
  {
    forall g | g in a ensures a[g] == b[g] {
      forall c | c in a[g] ensures a[g][c] == b[g][c] {
        assert Messages(a, g, c) == Messages(b, g, c);
      }
    }
  }
}
