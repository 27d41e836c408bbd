/** Auto-read text preparation: links, mentions and custom emoji are
    replaced, line breaks become '。', long text is cut at 100 characters,
    and the speaker defaults apply when the user has no voice settings. */
module VoiceText {
  import opened Common

  const MaxSpoken: nat := 100
  const Omitted: string := "以下略"

  /** The four patterns the cleaner substitutes, in the order applied. */
  datatype Pattern =
    | Url      // https?://[^\s]+
    | Mention  // <@!?(\d+)>
    | Channel  // <#(\d+)>
    | Emoji    // <:\w+:\d+>

  /** The regex class `\w`, restricted to ASCII. */
  predicate IsWordChar(c: char) {
    IsAsciiLetter(c) || IsDigit(c) || c == '_'
  }

  /** Length of the longest prefix of `t` whose characters satisfy the class. */
  function RunLen(t: string, digits: bool, word: bool): (n: nat)
    ensures n <= |t|
    ensures forall i :: 0 <= i < n ==> InClass(t[i], digits, word)
    ensures n < |t| ==> !InClass(t[n], digits, word)
  {
    if t != [] && InClass(t[0], digits, word) then 1 + RunLen(t[1..], digits, word) else 0
  }

  /** `\d` when `digits`, `\w` when `word`, else `[^\s]`. */
  predicate InClass(c: char, digits: bool, word: bool) {
    if digits then IsDigit(c) else if word then IsWordChar(c) else !IsSpace(c)
  }

  /** The length of the match of `p` at the start of `t`; 0 when it does
      not match there. The greedy runs never need to back off, since the
      character after each run cannot belong to it. */
  function MatchLen(p: Pattern, t: string): (n: nat)
    ensures n <= |t|
  {
    match p
    case Url =>
      var k := if IsPrefix("https://", t) then 8 else if IsPrefix("http://", t) then 7 else 0;
      if k == 0 then 0
      else
        var run := RunLen(t[k..], false, false);
        if run == 0 then 0 else k + run
    case Mention =>
      if !IsPrefix("<@", t) then 0
      else
        var k := if |t| > 2 && t[2] == '!' then 3 else 2;
        var d := RunLen(t[k..], true, false);
        if d > 0 && k + d < |t| && t[k + d] == '>' then k + d + 1 else 0
    case Channel =>
      if !IsPrefix("<#", t) then 0
      else
        var d := RunLen(t[2..], true, false);
        if d > 0 && 2 + d < |t| && t[2 + d] == '>' then 2 + d + 1 else 0
    case Emoji =>
      if !IsPrefix("<:", t) then 0
      else
        var w := RunLen(t[2..], false, true);
        var k := 2 + w;
        if w == 0 || k >= |t| || t[k] != ':' then 0
        else
          var d := RunLen(t[k + 1..], true, false);
          if d > 0 && k + 1 + d < |t| && t[k + 1 + d] == '>' then k + 1 + d + 1 else 0
  }

  /** `re.sub(p, repl, s)`: matches are taken left to right and never overlap. */
  function Sub(p: Pattern, s: string, repl: string): string
    decreases |s|
  {
    if s == [] then []
    else
      var n := MatchLen(p, s);
      if n > 0 then repl + Sub(p, s[n..], repl) else [s[0]] + Sub(p, s[1..], repl)
  }

  predicate NoMatch(p: Pattern, s: string) {
    forall i :: 0 <= i < |s| ==> MatchLen(p, s[i..]) == 0
  }

  /** Text in which the pattern matches nowhere is left as it is. */
  lemma {:induction false} SubNoMatch(p: Pattern, s: string, repl: string)
    requires NoMatch(p, s)
    ensures Sub(p, s, repl) == s
    decreases |s|
  {
    if s != [] {
      assert MatchLen(p, s[0..]) == 0 by { assert s[0..] == s; }
      forall i | 0 <= i < |s[1..]| ensures MatchLen(p, s[1..][i..]) == 0 {
        assert s[1..][i..] == s[i + 1..];
      }
      SubNoMatch(p, s[1..], repl);
    }
  }

  /** A mention is replaced as a whole and the text after it is treated
      on its own. */
  lemma MentionReplaced(digits: string, rest: string, repl: string)
    requires digits != [] && forall i :: 0 <= i < |digits| ==> IsDigit(digits[i])
    ensures Sub(Mention, "<@" + digits + ">" + rest, repl) == repl + Sub(Mention, rest, repl)
  {
    var t := "<@" + digits + ">" + rest;
    assert IsPrefix("<@", t);
    assert t[2..] == digits + ">" + rest;
    assert t[2] == digits[0];
    assert t[2..][|digits|] == '>';
    var d := RunLen(t[2..], true, false);
    assert d == |digits|;
    assert t[|digits| + 3..] == rest;
  }

  /** `text.replace('\n', '。')` */
  function NewlinesToStops(s: string): (r: string)
    ensures |r| == |s|
    ensures forall i :: 0 <= i < |s| ==> r[i] == if s[i] == '\n' then '。' else s[i]
  {
    if s == [] then [] else [if s[0] == '\n' then '。' else s[0]] + NewlinesToStops(s[1..])
  }

  /** The cut at 100 characters. */
  function Shorten(s: string): (r: string)
    ensures |s| <= MaxSpoken ==> r == s
    ensures |s| > MaxSpoken ==> r == s[..MaxSpoken] + Omitted && |r| == MaxSpoken + |Omitted|
  {
    if |s| > MaxSpoken then s[..MaxSpoken] + Omitted else s
  }

  /** The substitutions, in order. */
  function Substituted(text: string): string {
    var t1 := Sub(Url, text, "URL");
    var t2 := Sub(Mention, t1, "メンション");
    var t3 := Sub(Channel, t2, "チャンネル");
    Sub(Emoji, t3, "")
  }

  predicate NoLineBreak(s: string) {
    forall i :: 0 <= i < |s| ==> s[i] != '\n'
  }

  /** `_clean_message_for_speech`: no line break survives, at most 103
      characters remain, short text only loses surrounding whitespace, and
      long text is its first 100 characters without leading whitespace,
      followed by the omission mark. */
  function CleanForSpeech(text: string): (r: string)
    ensures NoLineBreak(r)
    ensures |r| <= MaxSpoken + |Omitted|
    ensures |Substituted(text)| <= MaxSpoken ==> r == Strip(NewlinesToStops(Substituted(text)))
    ensures |Substituted(text)| > MaxSpoken ==>
              r == TrimStart(NewlinesToStops(Substituted(text))[..MaxSpoken]) + Omitted
    ensures r != [] ==> !IsSpace(r[0]) && !IsSpace(r[|r| - 1])
  {
    var s := NewlinesToStops(Substituted(text));
    ShortenStripped(s);
    Strip(Shorten(s))
  }

  /** The cut and the strip together. */
  lemma ShortenStripped(s: string)
    requires NoLineBreak(s)
    ensures NoLineBreak(Strip(Shorten(s)))
    ensures |s| > MaxSpoken ==> Strip(Shorten(s)) == TrimStart(s[..MaxSpoken]) + Omitted
  {
    ShortenKeepsNoLineBreak(s);
    StripKeepsNoLineBreak(Shorten(s));
    if |s| > MaxSpoken {
      StripMarked(s[..MaxSpoken]);
    }
  }

  /** Stripping a cut text that ends in the omission mark only trims its
      start. */
  lemma StripMarked(s: string)
    ensures Strip(s + Omitted) == TrimStart(s) + Omitted
  {
    TrimStartAppend(s, Omitted);
    MarkEndsWord(TrimStart(s));
  }

  lemma MarkEndsWord(s: string)
    ensures TrimEnd(s + Omitted) == s + Omitted
  {
    var u := s + Omitted;
    assert u[|u| - 1] == '略';
    assert !IsSpace('略');
  }

  /** Leading whitespace is trimmed from the first part only when the
      second part starts with something else. */
  lemma {:induction false} TrimStartAppend(s: string, o: string)
    requires o != [] && !IsSpace(o[0])
    decreases |s|
    ensures TrimStart(s + o) == TrimStart(s) + o
  {
    if s != [] {
      assert (s + o)[0] == s[0];
      if IsSpace(s[0]) {
        assert (s + o)[1..] == s[1..] + o;
        TrimStartAppend(s[1..], o);
      }
    } else {
      assert s + o == o;
    }
  }

  lemma ShortenKeepsNoLineBreak(s: string)
    requires NoLineBreak(s)
    ensures NoLineBreak(Shorten(s))
  {
    if |s| > MaxSpoken {
      var r := Shorten(s);
      forall i | 0 <= i < |r| ensures r[i] != '\n' {
        if i < MaxSpoken {
          assert r[i] == s[i];
        } else {
          assert r[i] == Omitted[i - MaxSpoken];
        }
      }
    }
  }

  lemma StripKeepsNoLineBreak(t: string)
    requires NoLineBreak(t)
    ensures NoLineBreak(Strip(t))
  {
    var r := Strip(t);
    var a := |t| - |TrimStart(t)|;
    forall i | 0 <= i < |r| ensures r[i] != '\n' {
      assert r[i] == t[a + i];
    }
  }

  /** Plain text with nothing to substitute, no line break and at most 100
      characters is only stripped. */
  lemma PlainTextSpokenAsIs(text: string)
    requires NoMatch(Url, text) && NoMatch(Mention, text) && NoMatch(Channel, text) && NoMatch(Emoji, text)
    requires forall i :: 0 <= i < |text| ==> text[i] != '\n'
    requires |text| <= MaxSpoken
    ensures CleanForSpeech(text) == Strip(text)
  {
    SubNoMatch(Url, text, "URL");
    SubNoMatch(Mention, text, "メンション");
    SubNoMatch(Channel, text, "チャンネル");
    SubNoMatch(Emoji, text, "");
    assert NewlinesToStops(text) == text;
  }

  /** A user's stored voice settings. */
  datatype VoiceSettings = VoiceSettings(speaker: int, speed: real, pitch: real, volume: real)

  /** The settings used when the user has stored none. */
  const DefaultSettings: VoiceSettings := VoiceSettings(3, 1.0, 0.0, 1.0)

  /** What the auto-reader hands the synthesiser: the cleaned text and the
      speaker. The speed, pitch and volume it selects are not passed on. */
  datatype Speech = Speech(text: string, speaker: int)

  /** `on_message` with `_handle_auto_read`. `readChannel` is the guild's
      enabled auto-read channel, `connected` whether the bot is in voice,
      `stored` the author's settings if any. */
  function AutoRead(fromBot: bool, dbReady: bool, readChannel: Option<int>, channel: int, connected: bool,
                    stored: Option<VoiceSettings>, content: string): (r: Option<Speech>)
    ensures r.Some? <==>
      !fromBot && dbReady && readChannel == Some(channel) && connected && CleanForSpeech(content) != []
    ensures r.Some? ==> r.value.text == CleanForSpeech(content)
    ensures r.Some? && stored.None? ==> r.value.speaker == DefaultSettings.speaker
    ensures r.Some? && stored.Some? ==> r.value.speaker == stored.value.speaker
  {
    if fromBot || !dbReady || readChannel != Some(channel) || !connected then None
    else
      var settings := if stored.Some? then stored.value else DefaultSettings;
      var clean := CleanForSpeech(content);
      if clean == [] then None else Some(Speech(clean, settings.speaker))
  }
}
