/** The voice-channel owner mark: the first member to enter an empty voice
    channel becomes its owner and gets " 🏠" after their nickname; when the
    owner leaves, the original nickname is put back. Nickname edits are
    returned as requests, since Discord may refuse them. */
module VcOwner {
  import opened Common

  const Emoji: string := " \U{1F3E0}"
  const MaxNickLen: nat := 32

  /** The member as the event delivers it. */
  datatype Member = Member(id: int, nick: Option<string>, name: string)

  /** A nickname change to request: `SetNick(None)` resets to the user name. */
  datatype Edit = SetNick(nick: Option<string>)

  /** `vc_owners` (guild → channel → owner) and `original_nicks`
      (guild → user → nickname before the mark). */
  datatype State = State(owners: map<int, map<int, int>>, originals: map<int, map<int, Option<string>>>)

  function Get2<V>(m: map<int, map<int, V>>, g: int, k: int): Option<V> {
    if g in m && k in m[g] then Some(m[g][k]) else None
  }

  function Put2<V>(m: map<int, map<int, V>>, g: int, k: int, v: V): (r: map<int, map<int, V>>)
    ensures Get2(r, g, k) == Some(v)
    ensures forall g2, k2 :: g2 != g || k2 != k ==> Get2(r, g2, k2) == Get2(m, g2, k2)
  {
    m[g := (if g in m then m[g] else map[])[k := v]]
  }

  function Del2<V>(m: map<int, map<int, V>>, g: int, k: int): (r: map<int, map<int, V>>)
    ensures Get2(r, g, k).None?
    ensures forall g2, k2 :: g2 != g || k2 != k ==> Get2(r, g2, k2) == Get2(m, g2, k2)
  {
    if g in m && k in m[g] then m[g := m[g] - {k}] else m
  }

  /** The name shown in the guild: the nickname, else the user name. */
  function Display(m: Member): string {
    if m.nick.Some? then m.nick.value else m.name
  }

  /** The nickname `_set_owner` asks for, or `None` when the name already
      carries the mark. A name too long for the mark is cut so that the
      result is exactly 32 characters. */
  function OwnerNick(display: string): (r: Option<string>)
    ensures r.None? <==> IsSuffix(Emoji, display)
    ensures r.Some? ==> (
      && IsSuffix(Emoji, r.value)
      && |r.value| <= MaxNickLen
      && var base := r.value[..|r.value| - |Emoji|];
      && IsPrefix(base, display)
      && (|display| + |Emoji| <= MaxNickLen ==> base == display)
      && (|display| + |Emoji| > MaxNickLen ==> |r.value| == MaxNickLen))
  {
    if IsSuffix(Emoji, display) then None
    else
      var nick := display + Emoji;
      if |nick| > MaxNickLen then
        var base := display[..MaxNickLen - |Emoji|];
        assert (base + Emoji)[..|base|] == base;
        Some(base + Emoji)
      else
        assert nick[..|display|] == display;
        Some(nick)
  }

  /** Marking is idempotent: a marked name is never marked again. */
  lemma OwnerNickIdempotent(display: string)
    requires OwnerNick(display).Some?
    ensures OwnerNick(OwnerNick(display).value).None?
  {
  }

  /** `_set_owner`: records the owner and the member's nickname (possibly
      none), then asks for the marked name unless it is already marked. */
  function SetOwner(s: State, g: int, ch: int, m: Member): (r: (State, seq<Edit>))
    ensures Get2(r.0.owners, g, ch) == Some(m.id)
    ensures Get2(r.0.originals, g, m.id) == Some(m.nick)
    ensures r.1 == if OwnerNick(Display(m)).Some? then [SetNick(OwnerNick(Display(m)))] else []
  {
    var s1 := State(Put2(s.owners, g, ch, m.id), Put2(s.originals, g, m.id, m.nick));
    match OwnerNick(Display(m))
    case None => (s1, [])
    case Some(n) => (s1, [SetNick(Some(n))])
  }

  /** `_clear_owner`: asks for the recorded nickname back (none recorded
      means reset) and drops both records whether or not the edit works. */
  function ClearOwner(s: State, g: int, ch: int, m: Member): (r: (State, seq<Edit>))
    ensures Get2(r.0.owners, g, ch).None? && Get2(r.0.originals, g, m.id).None?
    ensures r.1 == [SetNick(match Get2(s.originals, g, m.id) case Some(o) => o case None => None)]
    ensures forall g2, c2 :: g2 != g || c2 != ch ==> Get2(r.0.owners, g2, c2) == Get2(s.owners, g2, c2)
    ensures forall g2, u2 :: g2 != g || u2 != m.id ==> Get2(r.0.originals, g2, u2) == Get2(s.originals, g2, u2)
  {
    var orig := match Get2(s.originals, g, m.id) case Some(o) => o case None => None;
    (State(Del2(s.owners, g, ch), Del2(s.originals, g, m.id)), [SetNick(orig)])
  }

  /** Marking and unmarking asks for the original nickname back and leaves
      no record of either. */
  lemma SetThenClear(s: State, g: int, ch: int, m: Member)
    ensures var s2 := ClearOwner(SetOwner(s, g, ch, m).0, g, ch, m);
      && s2.1 == [SetNick(m.nick)]
      && Get2(s2.0.owners, g, ch).None? && Get2(s2.0.originals, g, m.id).None?
  {
  }

  /** `on_voice_state_update`. `before` and `after` are the channels left
      and entered; `members` is the number of members the entered channel
      has after the event. */
  function VoiceUpdate(s: State, g: int, m: Member, before: Option<int>, after: Option<int>, members: int)
    : (r: (State, seq<Edit>))
    ensures before.None? && after.Some? && members != 1 ==> r == (s, [])
    ensures before.None? && after.Some? && members == 1 ==> r == SetOwner(s, g, after.value, m)
    ensures before.Some? && after.None? ==>
      r == (if Get2(s.owners, g, before.value) == Some(m.id) then ClearOwner(s, g, before.value, m) else (s, []))
    ensures before == after ==> r == (s, [])
    ensures before.Some? && after.Some? && before != after ==>
      var left := if Get2(s.owners, g, before.value) == Some(m.id) then ClearOwner(s, g, before.value, m) else (s, []);
      var entered := if members == 1 then SetOwner(left.0, g, after.value, m) else (left.0, []);
      r == (entered.0, left.1 + entered.1)
  {
    if before.None? && after.Some? then
      if members == 1 then SetOwner(s, g, after.value, m) else (s, [])
    else if before.Some? && after.None? then
      if Get2(s.owners, g, before.value) == Some(m.id) then ClearOwner(s, g, before.value, m) else (s, [])
    else if before.Some? && after.Some? && before.value != after.value then
      var left := if Get2(s.owners, g, before.value) == Some(m.id) then ClearOwner(s, g, before.value, m) else (s, []);
      var entered := if members == 1 then SetOwner(left.0, g, after.value, m) else (left.0, []);
      (entered.0, left.1 + entered.1)
    else (s, [])
  }

  /** A member leaving a channel they do not own changes nothing. */
  lemma NonOwnerLeaveIsNoop(s: State, g: int, m: Member, ch: int)
    requires Get2(s.owners, g, ch) != Some(m.id)
    ensures VoiceUpdate(s, g, m, Some(ch), None, 0) == (s, [])
  {
  }

  /** The first member into a channel becomes its owner; when that member
      leaves again the original nickname is requested back. */
  lemma JoinThenLeave(s: State, g: int, m: Member, ch: int)
    ensures var (s1, e1) := VoiceUpdate(s, g, m, None, Some(ch), 1);
      var (s2, e2) := VoiceUpdate(s1, g, m, Some(ch), None, 0);
      && Get2(s1.owners, g, ch) == Some(m.id)
      && e2 == [SetNick(m.nick)]
      && Get2(s2.owners, g, ch).None?
  {
    SetThenClear(s, g, ch, m);
  }
}
