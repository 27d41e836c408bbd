/** The presence monitor: per guild, a set of watched members (usually
    bots), their last known online status, the status last written to
    disk, and the channel that receives notices. Presence, the resolvable
    channels and the guilds the bot is in are inputs. */
module BotMonitor {
  import opened Common

  /** `{guild_id: {target_id: bool}}` */
  type Status = map<int, map<int, bool>>

  /** What the model keeps of a watched member's stored info. */
  datatype Target = Target(isBot: bool, roleId: Option<int>)

  datatype Monitor = Monitor(
    bots: map<int, map<int, Target>>,
    online: Status,
    persisted: Status,
    channels: map<int, int>)

  /** A notice sent to a guild's channel about one target. */
  datatype Notice = Notice(guild: int, target: int, online: bool)

  /** `.get(guild, {}).get(target)` */
  function Lookup2(s: Status, g: int, b: int): Option<bool> {
    if g in s && b in s[g] then Some(s[g][b]) else None
  }

  /** `.setdefault(guild, {})[target] = v` */
  function Put(s: Status, g: int, b: int, v: bool): (r: Status)
    ensures Lookup2(r, g, b) == Some(v)
    ensures forall g2, b2 :: g2 != g || b2 != b ==> Lookup2(r, g2, b2) == Lookup2(s, g2, b2)
  {
    s[g := (if g in s then s[g] else map[])[b := v]]
  }

  /** Deletes one entry, if present. */
  function Delete2(s: Status, g: int, b: int): (r: Status)
    ensures Lookup2(r, g, b).None?
    ensures forall g2, b2 :: g2 != g || b2 != b ==> Lookup2(r, g2, b2) == Lookup2(s, g2, b2)
  {
    if g in s && b in s[g] then s[g := s[g] - {b}] else s
  }

  /** `_get_guild_bot_status`: unknown guilds and targets are offline. */
  function GetStatus(m: Monitor, g: int, b: int): (r: bool)
    ensures r <==> Lookup2(m.online, g, b) == Some(true)
  {
    Lookup2(m.online, g, b).GetOr(false)
  }

  /** The status maps agree with `m`'s everywhere except at `(g, b)`. */
  ghost predicate OthersUnchanged(m: Monitor, r: Monitor, g: int, b: int) {
    && r.bots == m.bots && r.channels == m.channels
    && (forall g2, b2 :: g2 != g || b2 != b ==> Lookup2(r.online, g2, b2) == Lookup2(m.online, g2, b2))
    && (forall g2, b2 :: g2 != g || b2 != b ==> Lookup2(r.persisted, g2, b2) == Lookup2(m.persisted, g2, b2))
  }

  /** `_set_guild_bot_status`: nothing happens when the status is already
      `v`; otherwise the value is written to both the live and the
      persisted map. */
  function SetStatus(m: Monitor, g: int, b: int, v: bool): (r: Monitor)
    ensures GetStatus(r, g, b) == v
    ensures GetStatus(m, g, b) == v ==> r == m
    ensures GetStatus(m, g, b) != v ==> Lookup2(r.online, g, b) == Some(v) && Lookup2(r.persisted, g, b) == Some(v)
    ensures OthersUnchanged(m, r, g, b)
  {
    if GetStatus(m, g, b) == v then m
    else m.(online := Put(m.online, g, b, v), persisted := Put(m.persisted, g, b, v))
  }

  /** Setting an unknown target offline creates no entry. */
  lemma SetOfflineUnknownIsNoop(m: Monitor, g: int, b: int)
    requires Lookup2(m.online, g, b).None?
    ensures SetStatus(m, g, b, false) == m
    ensures Lookup2(SetStatus(m, g, b, false).online, g, b).None?
  {
  }

  // ---------------------------------------------------------------------
  // add and remove
  // ---------------------------------------------------------------------

  /** The one user who may watch non-bot members. */
  const TesterId: int := 1290527159726637140

  /** The optional channel argument of `add`, with its guild if any. */
  datatype Channel = Channel(id: int, guild: Option<int>)

  datatype AddOutcome = UserNotAllowed | AdminOnly | AlreadyWatched | ChannelInOtherGuild | Added

  /** Who may add which target. */
  predicate MayAdd(invoker: int, isAdmin: bool, targetIsBot: bool) {
    && (targetIsBot || invoker == TesterId)
    && (!targetIsBot || isAdmin || invoker == TesterId)
  }

  predicate Watched(m: Monitor, g: int, b: int) {
    g in m.bots && b in m.bots[g]
  }

  /** `add_bot`: a non-bot target only for the tester, a bot only for an
      admin or the tester, never twice in one guild. A new target is stored
      and its status set before the channel argument is examined, so a
      channel of another guild is refused after the target was added. */
  function AddBot(m: Monitor, g: int, invoker: int, isAdmin: bool, target: int, targetIsBot: bool,
                  roleId: Option<int>, isOnline: bool, channel: Option<Channel>): (r: (Monitor, AddOutcome))
    ensures r.1.UserNotAllowed? <==> !targetIsBot && invoker != TesterId
    ensures r.1.AdminOnly? <==> targetIsBot && !isAdmin && invoker != TesterId
    ensures r.1.AlreadyWatched? <==> MayAdd(invoker, isAdmin, targetIsBot) && Watched(m, g, target)
    ensures r.1.UserNotAllowed? || r.1.AdminOnly? || r.1.AlreadyWatched? ==> r.0 == m
    ensures r.1.ChannelInOtherGuild? <==> (
      && MayAdd(invoker, isAdmin, targetIsBot) && !Watched(m, g, target)
      && channel.Some? && channel.value.guild.Some? && channel.value.guild.value != g)
    ensures r.1.ChannelInOtherGuild? || r.1.Added? ==> (
      && Watched(r.0, g, target) && r.0.bots[g][target] == Target(targetIsBot, roleId)
      && (forall b :: b != target ==> (Watched(r.0, g, b) <==> Watched(m, g, b)))
      && (forall g2 :: g2 != g ==> (g2 in r.0.bots <==> g2 in m.bots) && (g2 in m.bots ==> r.0.bots[g2] == m.bots[g2]))
      && GetStatus(r.0, g, target) == isOnline)
    ensures r.1.ChannelInOtherGuild? ==> r.0.channels == m.channels
    ensures r.1.Added? ==> r.0.channels == if channel.Some? then m.channels[g := channel.value.id] else m.channels
  {
    if !targetIsBot && invoker != TesterId then (m, UserNotAllowed)
    else if targetIsBot && !isAdmin && invoker != TesterId then (m, AdminOnly)
    else if Watched(m, g, target) then (m, AlreadyWatched)
    else
      var guildMap := if g in m.bots then m.bots[g] else map[];
      var m1 := m.(bots := m.bots[g := guildMap[target := Target(targetIsBot, roleId)]]);
      var m2 := SetStatus(m1, g, target, isOnline);
      if channel.Some? && channel.value.guild.Some? && channel.value.guild.value != g then (m2, ChannelInOtherGuild)
      else if channel.Some? then (m2.(channels := m2.channels[g := channel.value.id]), Added)
      else (m2, Added)
  }

  datatype RemoveOutcome = BadId | NotWatched | Removed

  /** `remove_bot`: the id is parsed with `int()`; an unknown id changes
      nothing; a known one is dropped from the guild's three maps only. */
  function RemoveBot(m: Monitor, g: int, idText: string): (r: (Monitor, RemoveOutcome))
    ensures r.1.BadId? <==> ParseInt(idText).None?
    ensures r.1.Removed? <==> ParseInt(idText).Some? && Watched(m, g, ParseInt(idText).value)
    ensures !r.1.Removed? ==> r.0 == m
    ensures r.1.Removed? ==> (
      var b := ParseInt(idText).value;
      && !Watched(r.0, g, b)
      && Lookup2(r.0.online, g, b).None? && Lookup2(r.0.persisted, g, b).None?
      && (forall b2 :: b2 != b ==> (Watched(r.0, g, b2) <==> Watched(m, g, b2)))
      && (forall g2 :: g2 != g ==> (g2 in r.0.bots <==> g2 in m.bots) && (g2 in m.bots ==> r.0.bots[g2] == m.bots[g2]))
      && OthersUnchanged(m.(bots := r.0.bots), r.0, g, b))
  {
    match ParseInt(idText)
    case None => (m, BadId)
    case Some(b) =>
      if !Watched(m, g, b) then (m, NotWatched)
      else
        (m.(bots := m.bots[g := m.bots[g] - {b}],
            online := Delete2(m.online, g, b),
            persisted := Delete2(m.persisted, g, b)), Removed)
  }

  /** Adding a target and removing it by its id leaves no trace of it. */
  lemma AddThenRemove(m: Monitor, g: int, invoker: int, isAdmin: bool, target: int, targetIsBot: bool,
                      roleId: Option<int>, isOnline: bool)
    requires MayAdd(invoker, isAdmin, targetIsBot) && !Watched(m, g, target)
    ensures var (m1, added) := AddBot(m, g, invoker, isAdmin, target, targetIsBot, roleId, isOnline, None);
      var (m2, removed) := RemoveBot(m1, g, IntToString(target));
      && added.Added? && removed.Removed?
      && !Watched(m2, g, target) && !GetStatus(m2, g, target)
  {
    ParseIntOfIntToString(target);
  }

  // ---------------------------------------------------------------------
  // The periodic check
  // ---------------------------------------------------------------------

  /** The guild has a configured channel (a non-zero id) that resolves. */
  predicate Reachable(m: Monitor, g: int, resolvable: set<int>) {
    g in m.channels && m.channels[g] != 0 && m.channels[g] in resolvable
  }

  /** `send_status_notification`: an online notice is suppressed when the
      persisted status already says online; a sent notice records its
      status as persisted. */
  function Send(m: Monitor, g: int, b: int, isOnline: bool): (r: (Monitor, seq<Notice>))
    ensures isOnline && Lookup2(m.persisted, g, b) == Some(true) ==> r == (m, [])
    ensures !(isOnline && Lookup2(m.persisted, g, b) == Some(true)) ==>
      r.1 == [Notice(g, b, isOnline)] && Lookup2(r.0.persisted, g, b) == Some(isOnline)
    ensures r.0.online == m.online && OthersUnchanged(m, r.0, g, b)
  {
    if isOnline && Lookup2(m.persisted, g, b) == Some(true) then (m, [])
    else (m.(persisted := Put(m.persisted, g, b, isOnline)), [Notice(g, b, isOnline)])
  }

  /** One target of `check_bot_statuses`. `member` is the member's presence
      (`None` when the guild has no such member). Without a reachable
      channel the target is skipped; otherwise the transition is announced
      and the status set. */
  function CheckOne(m: Monitor, g: int, b: int, member: Option<bool>, resolvable: set<int>): (r: (Monitor, seq<Notice>))
    ensures !Reachable(m, g, resolvable) ==> r == (m, [])
    ensures Reachable(m, g, resolvable) ==> GetStatus(r.0, g, b) == member.GetOr(false)
    ensures |r.1| <= 1
    ensures Notice(g, b, false) in r.1 <==> Reachable(m, g, resolvable) && GetStatus(m, g, b) && !member.GetOr(false)
    ensures Notice(g, b, true) in r.1 ==> !GetStatus(m, g, b) && member.GetOr(false)
    ensures (Reachable(m, g, resolvable) && !GetStatus(m, g, b) && member.GetOr(false)
             && Lookup2(m.persisted, g, b) != Some(true)) ==> Notice(g, b, true) in r.1
    ensures forall n :: n in r.1 ==> n.guild == g && n.target == b
    ensures OthersUnchanged(m, r.0, g, b)
  {
    if !Reachable(m, g, resolvable) then (m, [])
    else
      var was := GetStatus(m, g, b);
      match member
      case None =>
        if was then
          var (m1, sent) := Send(m, g, b, false);
          (SetStatus(m1, g, b, false), sent)
        else (m, [])
      case Some(now) =>
        var (m1, sent) :=
          if was && !now then Send(m, g, b, false)
          else if !was && now then Send(m, g, b, true)
          else (m, []);
        (SetStatus(m1, g, b, now), sent)
  }

  /** A member the guild no longer has is treated as offline. */
  lemma MissingMemberIsOffline(m: Monitor, g: int, b: int, resolvable: set<int>)
    ensures CheckOne(m, g, b, None, resolvable) == CheckOne(m, g, b, Some(false), resolvable)
  {
  }

  /** A second check with the same presence announces nothing and
      changes nothing. */
  lemma CheckOneSettles(m: Monitor, g: int, b: int, member: Option<bool>, resolvable: set<int>)
    ensures var m1 := CheckOne(m, g, b, member, resolvable).0;
      CheckOne(m1, g, b, member, resolvable) == (m1, [])
  {
  }

  /** The presence of `(g, b)`: `None` when the member is not found. */
  function MemberOf(presence: map<(int, int), bool>, g: int, b: int): Option<bool> {
    if (g, b) in presence then Some(presence[(g, b)]) else None
  }

  /** `check_bot_statuses` over the watched pairs in iteration order. */
  function CheckAll(m: Monitor, pairs: seq<(int, int)>, presence: map<(int, int), bool>, resolvable: set<int>)
    : (r: (Monitor, seq<Notice>))
    ensures r.0.bots == m.bots && r.0.channels == m.channels
    ensures forall g, b :: (g, b) !in pairs ==> Lookup2(r.0.online, g, b) == Lookup2(m.online, g, b)
    ensures forall n :: n in r.1 ==> (n.guild, n.target) in pairs
    decreases |pairs|
  {
    if pairs == [] then (m, [])
    else
      var (g, b) := pairs[0];
      var (m1, n1) := CheckOne(m, g, b, MemberOf(presence, g, b), resolvable);
      var (m2, n2) := CheckAll(m1, pairs[1..], presence, resolvable);
      (m2, n1 + n2)
  }

  /** After a check every watched pair of a reachable guild holds its
      current presence. */
  lemma {:induction false} CheckAllStatus(m: Monitor, pairs: seq<(int, int)>, presence: map<(int, int), bool>,
                                          resolvable: set<int>, i: int)
    requires 0 <= i < |pairs|
    requires forall j, k :: 0 <= j < k < |pairs| ==> pairs[j] != pairs[k]
    requires Reachable(m, pairs[i].0, resolvable)
    ensures GetStatus(CheckAll(m, pairs, presence, resolvable).0, pairs[i].0, pairs[i].1)
         == MemberOf(presence, pairs[i].0, pairs[i].1).GetOr(false)
    decreases |pairs|
  {
    var (g, b) := pairs[0];
    var m1 := CheckOne(m, g, b, MemberOf(presence, g, b), resolvable).0;
    if i == 0 {
      assert (g, b) !in pairs[1..];
    } else {
      assert pairs[1..][i - 1] == pairs[i];
      CheckAllStatus(m1, pairs[1..], presence, resolvable, i - 1);
    }
  }

  /** Over a whole check of distinct pairs, a pair gets an offline notice
      exactly when it is watched in a reachable guild and goes from online
      to offline. */
  lemma {:induction false} CheckAllOfflineNotices(m: Monitor, pairs: seq<(int, int)>, presence: map<(int, int), bool>,
                                                  resolvable: set<int>, g: int, b: int)
    requires forall j, k :: 0 <= j < k < |pairs| ==> pairs[j] != pairs[k]
    ensures Notice(g, b, false) in CheckAll(m, pairs, presence, resolvable).1 <==>
      (g, b) in pairs && Reachable(m, g, resolvable) && GetStatus(m, g, b) && !MemberOf(presence, g, b).GetOr(false)
    decreases |pairs|
  {
    if pairs != [] {
      var (g0, b0) := pairs[0];
      var (m1, n1) := CheckOne(m, g0, b0, MemberOf(presence, g0, b0), resolvable);
      var rest := pairs[1..];
      assert forall j, k :: 0 <= j < k < |rest| ==> rest[j] != rest[k] by {
        forall j, k | 0 <= j < k < |rest| ensures rest[j] != rest[k] {
          assert rest[j] == pairs[j + 1] && rest[k] == pairs[k + 1];
        }
      }
      CheckAllOfflineNotices(m1, rest, presence, resolvable, g, b);
      assert Reachable(m1, g, resolvable) == Reachable(m, g, resolvable);
      if (g, b) == (g0, b0) {
        assert (g, b) !in rest by {
          forall k | 0 <= k < |rest| ensures rest[k] != (g, b) {
            assert rest[k] == pairs[k + 1];
          }
        }
      } else {
        assert GetStatus(m1, g, b) == GetStatus(m, g, b);
        assert (g, b) in pairs <==> (g, b) in rest;
      }
    }
  }

  // ---------------------------------------------------------------------
  // Startup
  // ---------------------------------------------------------------------

  /** `_init_online_status_cache`, first half: the current presence of
      every watched pair, written to the live map. */
  function InitCache(online: Status, pairs: seq<(int, int)>, presence: map<(int, int), bool>): (r: Status)
    ensures forall g, b :: (g, b) in pairs ==> Lookup2(r, g, b) == Some(MemberOf(presence, g, b).GetOr(false))
    ensures forall g, b :: (g, b) !in pairs ==> Lookup2(r, g, b) == Lookup2(online, g, b)
  {
    if pairs == [] then online
    else
      var (g, b) := pairs[|pairs| - 1];
      var front := pairs[..|pairs| - 1];
      assert pairs == front + [(g, b)];
      Put(InitCache(online, front, presence), g, b, MemberOf(presence, g, b).GetOr(false))
  }

  /** The startup notice for one entry of the live map: only when a
      persisted value exists and differs, the guild is still there, its
      channel resolves and the target is watched. */
  function StartupNotice(m: Monitor, g: int, b: int, guilds: set<int>, resolvable: set<int>): (r: seq<Notice>)
    ensures r != [] <==> (
      && Lookup2(m.persisted, g, b).Some? && Lookup2(m.online, g, b).Some?
      && Lookup2(m.persisted, g, b) != Lookup2(m.online, g, b)
      && g in guilds && Reachable(m, g, resolvable) && Watched(m, g, b))
    ensures r != [] ==> r == [Notice(g, b, Lookup2(m.online, g, b).value)]
  {
    match (Lookup2(m.persisted, g, b), Lookup2(m.online, g, b))
    case (Some(prev), Some(cur)) =>
      if prev != cur && g in guilds && Reachable(m, g, resolvable) && Watched(m, g, b) then [Notice(g, b, cur)]
      else []
    case _ => []
  }

  function StartupNotices(m: Monitor, entries: seq<(int, int)>, guilds: set<int>, resolvable: set<int>): (r: seq<Notice>)
    ensures forall n :: n in r ==> (n.guild, n.target) in entries
                                    && Lookup2(m.online, n.guild, n.target) == Some(n.online)
                                    && Lookup2(m.persisted, n.guild, n.target) == Some(!n.online)
  {
    if entries == [] then []
    else StartupNotice(m, entries[0].0, entries[0].1, guilds, resolvable)
         + StartupNotices(m, entries[1..], guilds, resolvable)
  }

  /** `_init_online_status_cache`: refresh the live map, announce what
      changed while the bot was down (`entries` lists the live map's
      pairs in iteration order) and make the persisted map a copy of the
      live one. */
  function Startup(m: Monitor, pairs: seq<(int, int)>, entries: seq<(int, int)>, presence: map<(int, int), bool>,
                   guilds: set<int>, resolvable: set<int>): (r: (Monitor, seq<Notice>))
    ensures r.0.persisted == r.0.online
    ensures forall g, b :: (g, b) in pairs ==> GetStatus(r.0, g, b) == MemberOf(presence, g, b).GetOr(false)
    ensures forall n :: n in r.1 ==> Lookup2(m.persisted, n.guild, n.target) == Some(!n.online)
                                     && GetStatus(r.0, n.guild, n.target) == n.online
  {
    var m1 := m.(online := InitCache(m.online, pairs, presence));
    (m1.(persisted := m1.online), StartupNotices(m1, entries, guilds, resolvable))
  }
}
