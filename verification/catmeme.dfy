/** The cat-meme responder: in enabled guilds, a message from a member
    holding the catmeme role that mentions a trigger word is answered with
    the page for the first such trigger in table order. */
module Catmeme {
  import opened Common

  const BaseUrl: string := "https://reitouko.site/catmeme_html/"
  const RoleName: string := "catmeme"

  /** The trigger table, in the order it is written: (trigger, page). */
  const Triggers: seq<(string, string)> := [
    ("しばくぞ", "amoasuneko.html"),
    ("だる", "darucat.html"),
    ("ちぴ", "Dubidubiducat.html"),
    ("やった", "EDMcat.html"),
    ("やったー", "Girlfriend猫.html"),
    ("うるさい", "goat.html"),
    ("うま", "jyannkufoodneko.html"),
    ("かりかり", "kamikudakuneko.html"),
    ("www", "ramuneko.html"),
    ("nothappy", "Nothappy猫.html"),
    ("回転", "ooiia.html"),
    ("おつかい", "otukaineko.html"),
    ("パソコン", "PCcat.html"),
    ("pop", "popcat.html"),
    ("pura", "purapuracat.html"),
    ("suyaa", "suyaa.html"),
    ("syobon", "syobon.html"),
    ("waitingforlove", "WaitingForLovecat.html"),
    ("しばく", "しばくぞ.html"),
    ("ズッキー", "ズッキーニャ.html"),
    ("チベット", "チベットスナ猫.html"),
    ("トリガー", "トリガーハッピー猫.html"),
    ("ドライブ", "ドライブ猫.html"),
    ("ノリノリ", "ノリノリ猫.html"),
    ("ハァ", "ハァ？.html"),
    ("ハピハピ", "ハピハピ猫【これが一番好き】.html"),
    ("バイク1", "バイク猫１.html"),
    ("バイク2", "バイク猫２.html"),
    ("バッドトリップ", "バッドトリップ猫.html"),
    ("バナナ", "バナナ猫.html"),
    ("バナナダッシュ", "バナナ猫ダッシュ.html"),
    ("ヒートアップ", "ヒートアップ猫.html"),
    ("ヒーロー", "ヒーローインタビュー猫.html"),
    ("フクロウ12", "フクロウ猫１+２.html"),
    ("フクロウ1", "フクロウ猫１.html"),
    ("フクロウ2", "フクロウ猫２.html"),
    ("ホドモエ", "ホドモエシティ猫.html"),
    ("モフ叫び", "モフ猫叫び.html"),
    ("リンゴ", "リンゴ猫.html"),
    ("休日1", "休日お父さん猫１.html"),
    ("休日2", "休日お父さん猫２.html"),
    ("休日3", "休日お父さん猫３.html"),
    ("半径", "半径250㎝猫.html"),
    ("叱られる", "叱られる猫.html"),
    ("嘔吐1", "嘔吐猫１.html"),
    ("嘔吐2", "嘔吐猫２（猫単体）.html"),
    ("あくび", "大あくび猫.html")
  ]

  /** Does the table entry at `i` fire on `content` (already lowercased)? */
  predicate Fires(table: seq<(string, string)>, i: nat, content: string)
    requires i < |table|
  {
    Contains(content, Lower(table[i].0))
  }

  /** The index of the first entry at or after `from` that fires. */
  function FirstMatch(table: seq<(string, string)>, content: string, from: nat): (r: Option<nat>)
    requires from <= |table|
    ensures r.Some? ==> from <= r.value < |table| && Fires(table, r.value, content)
    ensures r.Some? ==> forall j :: from <= j < r.value ==> !Fires(table, j, content)
    ensures r.None? ==> forall j :: from <= j < |table| ==> !Fires(table, j, content)
    decreases |table| - from
  {
    if from == |table| then None
    else if Fires(table, from, content) then Some(from)
    else FirstMatch(table, content, from + 1)
  }

  datatype Role = Role(id: int, name: string)

  /** The cog's settings: the enabled guilds and the catmeme role per guild. */
  datatype Settings = Settings(enabled: set<int>, roleIds: map<int, int>)

  /** The stored role id decides when there is a non-zero one; otherwise
      any role named "catmeme" does. */
  predicate HasRole(s: Settings, guild: int, roles: seq<Role>) {
    if guild in s.roleIds && s.roleIds[guild] != 0 then
      exists i :: 0 <= i < |roles| && roles[i].id == s.roleIds[guild]
    else
      exists i :: 0 <= i < |roles| && roles[i].name == RoleName
  }

  /** The message as the listener sees it; `guild` is None in a DM. */
  datatype Message = Message(fromBot: bool, guild: Option<int>, roles: seq<Role>, content: string)

  /** `on_message` over a trigger table: the reply URL, or None when
      nothing is sent. */
  function Respond(table: seq<(string, string)>, s: Settings, m: Message): (r: Option<string>)
    ensures r.Some? <==> (
      && !m.fromBot && m.guild.Some? && m.guild.value in s.enabled
      && HasRole(s, m.guild.value, m.roles)
      && exists j :: 0 <= j < |table| && Fires(table, j, Lower(m.content)))
    ensures r.Some? ==>
      exists i ::
        && 0 <= i < |table|
        && r.value == BaseUrl + table[i].1
        && Fires(table, i, Lower(m.content))
        && forall j :: 0 <= j < i ==> !Fires(table, j, Lower(m.content))
  {
    if m.fromBot || m.guild.None? || m.guild.value !in s.enabled then None
    else if !HasRole(s, m.guild.value, m.roles) then None
    else match FirstMatch(table, Lower(m.content), 0)
      case None => None
      case Some(i) =>
        assert Fires(table, i, Lower(m.content));
        Some(BaseUrl + table[i].1)
  }

  /** `on_message` with the bot's own table. */
  function OnMessage(s: Settings, m: Message): Option<string> {
    Respond(Triggers, s, m)
  }

  /** An entry is shadowed when an earlier entry's trigger occurs inside its
      own, so that whenever it fires the earlier one fires too. */
  lemma {:induction false} Shadowed(table: seq<(string, string)>, early: nat, late: nat, content: string)
    requires early < late < |table|
    requires Contains(Lower(table[late].0), Lower(table[early].0))
    ensures FirstMatch(table, content, 0) != Some(late)
  {
    if FirstMatch(table, content, 0) == Some(late) {
      assert !Fires(table, early, content);
      ContainsTransitive(content, Lower(table[late].0), Lower(table[early].0));
    }
  }

  /** An entry whose trigger starts with an earlier entry's trigger, both
      free of ASCII capitals, is shadowed. */
  lemma ShadowedByPrefix(table: seq<(string, string)>, early: nat, late: nat, content: string)
    requires early < late < |table|
    requires IsPrefix(table[early].0, table[late].0)
    requires NoCapitals(table[late].0)
    ensures FirstMatch(table, content, 0) != Some(late)
  {
    var a := table[early].0;
    var b := table[late].0;
    forall i | 0 <= i < |a| ensures !('A' <= a[i] <= 'Z') {
      assert a[i] == b[i];
    }
    LowerOfNoCapitals(a);
    LowerOfNoCapitals(b);
    assert OccursAt(b, a, 0);
    Shadowed(table, early, late, content);
  }

  predicate NoCapitals(s: string) {
    forall i :: 0 <= i < |s| ==> !('A' <= s[i] <= 'Z')
  }

  /** Lowercasing leaves a string without ASCII capitals alone. */
  lemma LowerOfNoCapitals(s: string)
    requires NoCapitals(s)
    ensures Lower(s) == s
  {
  }

  lemma YattaEntries()
    ensures 4 < |Triggers| && IsPrefix(Triggers[3].0, Triggers[4].0) && NoCapitals(Triggers[4].0)
  {
    assert Triggers[3].0 == "やった" && Triggers[4].0 == "やったー";
  }

  lemma BananaEntries()
    ensures 30 < |Triggers| && IsPrefix(Triggers[29].0, Triggers[30].0) && NoCapitals(Triggers[30].0)
  {
    assert Triggers[29].0 == "バナナ" && Triggers[30].0 == "バナナダッシュ";
  }

  /** 'やったー' sits behind 'やった', so its page is never sent. */
  lemma YattaShadowed(content: string)
    ensures FirstMatch(Triggers, content, 0) != Some(4)
  {
    YattaEntries();
    ShadowedByPrefix(Triggers, 3, 4, content);
  }

  /** 'バナナダッシュ' sits behind 'バナナ', so its page is never sent. */
  lemma BananaDashShadowed(content: string)
    ensures FirstMatch(Triggers, content, 0) != Some(30)
  {
    BananaEntries();
    ShadowedByPrefix(Triggers, 29, 30, content);
  }

  datatype HannouReply =
    | NotInGuild
    | EnabledForGuild
    | RoleSetupFailed
    | NotEnabledHere
    | RoleMissing
    | RoleGranted
    | GrantFailed
    | DisabledForGuild
    | OptedOut
    | BadMode

  /** `/hannou mode`. `role` is the catmeme role found (or, for an admin,
      created); `granted` tells whether giving it to the caller succeeded. */
  function Hannou(s: Settings, guild: Option<int>, isAdmin: bool, mode: string, role: Option<int>, granted: bool)
    : (r: (Settings, HannouReply))
    ensures guild.None? ==> r == (s, NotInGuild)
    ensures guild.Some? && Lower(mode) == "on" && isAdmin ==>
      && r.0.enabled == s.enabled + {guild.value}
      && (role.Some? && granted ==> r.0.roleIds == s.roleIds[guild.value := role.value] && r.1 == EnabledForGuild)
      && (!(role.Some? && granted) ==> r.0.roleIds == s.roleIds && r.1 != EnabledForGuild)
    ensures guild.Some? && Lower(mode) == "on" && !isAdmin ==>
      && r.0.enabled == s.enabled
      && (guild.value !in s.enabled ==> r == (s, NotEnabledHere))
      && (r.1 == RoleGranted <==> guild.value in s.enabled && role.Some? && granted)
      && (r.1 == RoleGranted ==> r.0.roleIds == s.roleIds[guild.value := role.value])
      && (r.1 != RoleGranted ==> r.0 == s)
    ensures guild.Some? && Lower(mode) == "off" ==>
      && r.0.roleIds == s.roleIds
      && r.0.enabled == (if isAdmin then s.enabled - {guild.value} else s.enabled)
    ensures guild.Some? && Lower(mode) != "on" && Lower(mode) != "off" ==> r == (s, BadMode)
  {
    if guild.None? then (s, NotInGuild)
    else
      var g := guild.value;
      var mode := Lower(mode);
      if mode == "on" then
        if isAdmin then
          var s1 := s.(enabled := s.enabled + {g});
          if role.None? then (s1, RoleSetupFailed)
          else if !granted then (s1, GrantFailed)
          else (s1.(roleIds := s1.roleIds[g := role.value]), EnabledForGuild)
        else if g !in s.enabled then (s, NotEnabledHere)
        else if role.None? then (s, RoleMissing)
        else if !granted then (s, GrantFailed)
        else (s.(roleIds := s.roleIds[g := role.value]), RoleGranted)
      else if mode == "off" then
        if isAdmin then (s.(enabled := s.enabled - {g}), DisabledForGuild)
        else (s, OptedOut)
      else (s, BadMode)
  }

  /** After an admin turns the responder off, no message in that guild is
      answered, whatever the role settings. */
  lemma OffSilences(s: Settings, g: int, role: Option<int>, granted: bool, m: Message)
    requires m.guild == Some(g)
    ensures var s1 := Hannou(s, Some(g), true, "off", role, granted).0;
      OnMessage(s1, m).None?
  {
    assert Lower("off") == "off";
  }

  /** Once an admin turns it on with the role in hand, a message from a
      holder of that role containing 'www' gets a reply. */
  lemma OnThenMessage(s: Settings, g: int, roleId: int, m: Message)
    requires roleId != 0
    requires m.guild == Some(g) && !m.fromBot
    requires exists i :: 0 <= i < |m.roles| && m.roles[i].id == roleId
    requires Contains(Lower(m.content), "www")
    ensures var s1 := Hannou(s, Some(g), true, "on", Some(roleId), true).0;
      OnMessage(s1, m).Some?
  {
    assert Lower("on") == "on";
    WwwEntry();
    assert Fires(Triggers, 8, Lower(m.content));
  }

  lemma WwwEntry()
    ensures 8 < |Triggers| && Lower(Triggers[8].0) == "www"
  {
    assert Triggers[8].0 == "www";
    LowerOfNoCapitals("www");
  }
}
