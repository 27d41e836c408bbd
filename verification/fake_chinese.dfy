/** The "fake Chinese" channel rules: Chinese numerals and the numeral dice
    notation, the validator that forbids kana and lone Latin letters, the
    per-user violation counter and the list of rule-bound channels. */
module FakeChinese {
  import opened Common

  /** The numeral table of `parse_chinese_dice`. */
  function NumeralValue(c: char): Option<nat> {
    match c
    case '一' => Some(1)
    case '二' => Some(2)
    case '三' => Some(3)
    case '四' => Some(4)
    case '五' => Some(5)
    case '六' => Some(6)
    case '七' => Some(7)
    case '八' => Some(8)
    case '九' => Some(9)
    case '十' => Some(10)
    case '百' => Some(100)
    case '千' => Some(1000)
    case '万' => Some(10000)
    case _ => None
  }

  predicate IsNumeral(c: char) { NumeralValue(c).Some? }

  /** The running `(total, current)` pair of `convert_chinese_number` after
      scanning `s`: a unit (10 and up) adds `(current or 1) * unit` to the
      total and clears `current`; a digit replaces `current`; characters
      outside the table are skipped. */
  function Scan(s: string, total: nat, current: nat): (nat, nat)
    decreases |s|
  {
    if s == [] then (total, current)
    else match NumeralValue(s[0])
      case None => Scan(s[1..], total, current)
      case Some(v) =>
        if v >= 10 then Scan(s[1..], total + (if current == 0 then 1 else current) * v, 0)
        else Scan(s[1..], total, v)
  }

  /** `convert_chinese_number`: a single table character is its value;
      otherwise the scan's total plus the pending digit, and 1 when that
      comes to 0. */
  function ConvertChineseNumber(s: string): (n: nat)
    ensures n >= 1
    ensures |s| == 1 && IsNumeral(s[0]) ==> n == NumeralValue(s[0]).value
  {
    if |s| == 1 && IsNumeral(s[0]) then NumeralValue(s[0]).value
    else
      var (total, current) := Scan(s, 0, 0);
      if total + current > 0 then total + current else 1
  }

  /** Compound numerals read as the scan describes. */
  lemma ConvertExamples()
    ensures ConvertChineseNumber("三十五") == 35
    ensures ConvertChineseNumber("二十") == 20
    ensures ConvertChineseNumber("一百万") == 10100
    ensures ConvertChineseNumber("零") == 1
  {
  }

  const Digits: seq<char> := ['一', '二', '三', '四', '五', '六', '七', '八', '九']

  function DigitNumeral(d: int): (c: char)
    requires 1 <= d <= 9
    ensures NumeralValue(c) == Some(d)
  {
    Digits[d - 1]
  }

  /** `number_to_chinese`: single digits, the four unit characters, the
      teens as 十 followed by a digit, the other two-digit numbers as tens
      digit, 十 and a non-zero ones digit; '零' for zero and below and
      decimal digits for everything else. */
  function NumberToChinese(num: int): (s: string)
    ensures |s| >= 1
    ensures 1 <= num <= 9 ==> |s| == 1 && NumeralValue(s[0]) == Some(num)
    ensures num <= 0 ==> s == "零"
    ensures 100 < num && num !in {1000, 10000} ==> s == IntToString(num)
  {
    if num <= 9 then (if num > 0 then [DigitNumeral(num)] else "零")
    else if num == 10 then "十"
    else if num == 100 then "百"
    else if num == 1000 then "千"
    else if num == 10000 then "万"
    else if num < 20 then "十" + [DigitNumeral(num - 10)]
    else if num < 100 then
      var tens := num / 10;
      var ones := num % 10;
      [DigitNumeral(tens)] + "十" + (if ones > 0 then [DigitNumeral(ones)] else [])
    else IntToString(num)
  }

  /** Every number the encoder writes in Chinese numerals is read back by
      the decoder: 1..99 and the units 100, 1000 and 10000. */
  lemma NumberRoundTrip(n: int)
    requires 1 <= n <= 99 || n in {100, 1000, 10000}
    ensures ConvertChineseNumber(NumberToChinese(n)) == n
  {
    if 10 < n < 20 {
      var d := DigitNumeral(n - 10);
      assert NumberToChinese(n) == ['十', d];
      assert Scan(['十', d], 0, 0) == Scan([d], 10, 0);
      assert Scan([d], 10, 0) == Scan([], 10, n - 10);
    } else if 20 <= n < 100 {
      var t, o := n / 10, n % 10;
      var dt := DigitNumeral(t);
      if o > 0 {
        var d := DigitNumeral(o);
        assert NumberToChinese(n) == [dt, '十', d];
        assert Scan([dt, '十', d], 0, 0) == Scan(['十', d], 0, t);
        assert Scan(['十', d], 0, t) == Scan([d], t * 10, 0);
        assert Scan([d], t * 10, 0) == Scan([], t * 10, o);
      } else {
        assert NumberToChinese(n) == [dt, '十'];
        assert Scan([dt, '十'], 0, 0) == Scan(['十'], 0, t);
        assert Scan(['十'], 0, t) == Scan([], t * 10, 0);
      }
    }
  }

  /** Numbers above 99 other than the units come back as decimal digits,
      which the decoder does not read: they decode to 1. */
  lemma LargeNumbersDoNotRoundTrip()
    ensures NumberToChinese(123) == "123"
    ensures ConvertChineseNumber(NumberToChinese(123)) == 1
  {
    assert NatToString(123) == NatToString(12) + "3";
    assert NatToString(12) == NatToString(1) + "2";
  }

  /** Where the dice pattern `<numerals>賽<numerals>` can be matched around
      position `k` of '賽'. */
  predicate DiceAt(text: string, k: int) {
    && 0 < k < |text| - 1
    && text[k] == '賽'
    && IsNumeral(text[k - 1])
    && IsNumeral(text[k + 1])
  }

  /** The first position from `k` on where the pattern matches. */
  function FindDice(text: string, k: nat): (r: Option<nat>)
    ensures r.Some? ==> (k <= r.value && DiceAt(text, r.value)
                         && forall j :: k <= j < r.value ==> !DiceAt(text, j))
    ensures r.None? ==> forall j :: k <= j ==> !DiceAt(text, j)
    decreases |text| - k
  {
    if k >= |text| then None
    else if DiceAt(text, k) then Some(k)
    else FindDice(text, k + 1)
  }

  /** Length of the run of numerals ending just before position `k`. */
  function RunBefore(text: string, k: nat): (n: nat)
    requires k <= |text|
    ensures n <= k
    ensures forall i :: k - n <= i < k ==> IsNumeral(text[i])
    ensures n < k ==> !IsNumeral(text[k - n - 1])
  {
    if k == 0 || !IsNumeral(text[k - 1]) then 0 else RunBefore(text, k - 1) + 1
  }

  /** Length of the run of numerals starting at position `k`. */
  function RunFrom(text: string, k: nat): (n: nat)
    requires k <= |text|
    ensures k + n <= |text|
    ensures forall i :: k <= i < k + n ==> IsNumeral(text[i])
    ensures k + n < |text| ==> !IsNumeral(text[k + n])
    decreases |text| - k
  {
    if k == |text| || !IsNumeral(text[k]) then 0 else RunFrom(text, k + 1) + 1
  }

  /** `parse_chinese_dice`: `None` when the text holds no numeral run, '賽'
      and numeral run; otherwise the decoded (count, sides) of the leftmost
      match, whose runs are the longest ones around that '賽'. */
  function ParseChineseDice(text: string): (r: Option<(nat, nat)>)
    ensures r.None? <==> forall k :: !DiceAt(text, k)
    ensures r.Some? ==> r.value.0 >= 1 && r.value.1 >= 1
  {
    match FindDice(text, 0)
    case None => None
    case Some(k) =>
      var before := RunBefore(text, k);
      var after := RunFrom(text, k + 1);
      Some((ConvertChineseNumber(text[k - before..k]), ConvertChineseNumber(text[k + 1..k + 1 + after])))
  }

  /** The numerals on either side of the leftmost '賽' are decoded. */
  lemma DiceSimple()
    ensures ParseChineseDice("二賽六") == Some((2, 6))
  {
    var t := "二賽六";
    assert !DiceAt(t, 0) && DiceAt(t, 1);
    assert FindDice(t, 0) == Some(1);
    assert RunBefore(t, 1) == 1 by {
      assert RunBefore(t, 0) == 0;
    }
    assert RunFrom(t, 2) == 1 by {
      assert RunFrom(t, 3) == 0;
    }
    assert t[0..1] == "二" && t[2..3] == "六";
    assert ConvertChineseNumber("二") == 2 && ConvertChineseNumber("六") == 6;
  }

  /** Text around the match is ignored. */
  lemma DiceInSentence()
    ensures ParseChineseDice("今三賽十振") == Some((3, 10))
  {
    var t := "今三賽十振";
    SentenceDiceFound();
    SentenceRuns();
    SentenceNumbers();
    DiceDecoded(t, 2);
  }

  lemma SentenceDiceFound()
    ensures FindDice("今三賽十振", 0) == Some(2)
  {
    var t := "今三賽十振";
    assert !DiceAt(t, 0) && !DiceAt(t, 1) && DiceAt(t, 2);
  }

  lemma SentenceRuns()
    ensures RunBefore("今三賽十振", 2) == 1 && RunFrom("今三賽十振", 3) == 1
  {
    var t := "今三賽十振";
    assert RunBefore(t, 1) == 0;
    assert RunFrom(t, 4) == 0;
  }

  lemma SentenceNumbers()
    ensures var t := "今三賽十振";
      ConvertChineseNumber(t[1..2]) == 3 && ConvertChineseNumber(t[3..4]) == 10
  {
    var t := "今三賽十振";
    assert t[1..2] == "三" && t[3..4] == "十";
  }

  /** The roll read around the first match at `k`. */
  lemma DiceDecoded(t: string, k: nat)
    requires FindDice(t, 0) == Some(k)
    ensures var before := RunBefore(t, k);
      var after := RunFrom(t, k + 1);
      ParseChineseDice(t) == Some((ConvertChineseNumber(t[k - before..k]),
                                   ConvertChineseNumber(t[k + 1..k + 1 + after])))
  {
  }

  /** Without a numeral before '賽' there is no roll. */
  lemma DiceNeedsCount()
    ensures ParseChineseDice("賽六") == None
  {
    forall k ensures !DiceAt("賽六", k) {
    }
  }

  const MaxDice: int := 100
  const MaxSides: int := 10000

  /** `roll_dice`: `None` unless 1 <= count <= 100 and 1 <= sides <= 10000;
      otherwise `count` results of `randint(1, sides)`, the i-th drawn from
      the random value `draw(i)`. */
  function RollDice(count: int, sides: int, draw: nat -> nat): (r: Option<seq<int>>)
    ensures r.Some? <==> 1 <= count <= MaxDice && 1 <= sides <= MaxSides
    ensures r.Some? ==> (|r.value| == count
                         && forall i :: 0 <= i < |r.value| ==> 1 <= r.value[i] <= sides)
  {
    if count <= 0 || sides <= 0 then None
    else if count > MaxDice || sides > MaxSides then None
    else Some(seq(count, i requires 0 <= i < count => 1 + draw(i) % sides))
  }

  /** Every outcome is possible: any list of `count` values in 1..sides is
      the roll for some choice of random values. */
  lemma EveryRollPossible(count: int, sides: int, want: seq<int>)
    requires 1 <= count <= MaxDice && 1 <= sides <= MaxSides
    requires |want| == count && forall i :: 0 <= i < |want| ==> 1 <= want[i] <= sides
    ensures exists draw: nat -> nat :: RollDice(count, sides, draw) == Some(want)
  {
    RollOfDrawFor(count, sides, want);
  }

  /** The random values that make `randint(1, sides)` give `want`. */
  function DrawFor(want: seq<int>): nat -> nat {
    (i: nat) => if i < |want| && want[i] >= 1 then (want[i] - 1) as nat else 0
  }

  lemma RollOfDrawFor(count: int, sides: int, want: seq<int>)
    requires 1 <= count <= MaxDice && 1 <= sides <= MaxSides
    requires |want| == count && forall i :: 0 <= i < |want| ==> 1 <= want[i] <= sides
    ensures RollDice(count, sides, DrawFor(want)) == Some(want)
  {
    var draw := DrawFor(want);
    var r := RollDice(count, sides, draw).value;
    forall i | 0 <= i < |want| ensures r[i] == want[i] {
      RollValue(count, sides, draw, i);
      DrawForValue(want, i);
      ModSmall(want[i] - 1, sides);
    }
    assert r == want;
  }

  lemma DrawForValue(want: seq<int>, i: nat)
    requires i < |want| && want[i] >= 1
    ensures DrawFor(want)(i) == want[i] - 1
  {
  }

  lemma ModSmall(a: nat, b: int)
    requires a < b
    ensures a % b == a
  {
  }

  /** The i-th result is `randint(1, sides)` of the i-th random value. */
  lemma RollValue(count: int, sides: int, draw: nat -> nat, i: nat)
    requires RollDice(count, sides, draw).Some? && i < count
    ensures RollDice(count, sides, draw).value[i] == 1 + draw(i) % sides
  {
  }

  /** ぁ..ん and ァ..ン, the kana the regex forbids. */
  predicate IsForbiddenKana(c: char) {
    ('\U{3041}' <= c <= '\U{3093}') || ('\U{30A1}' <= c <= '\U{30F3}')
  }

  /** Length of the run of ASCII letters at the start of `s`. */
  function LetterRun(s: string): (n: nat)
    ensures n <= |s|
    ensures forall i :: 0 <= i < n ==> IsAsciiLetter(s[i])
    ensures n < |s| ==> !IsAsciiLetter(s[n])
  {
    if s == [] || !IsAsciiLetter(s[0]) then 0 else 1 + LetterRun(s[1..])
  }

  /** `re.findall(r'[a-zA-Z]+', s)`: the maximal runs of ASCII letters. */
  function LetterWords(s: string): seq<string>
    decreases |s|
  {
    if s == [] then []
    else if !IsAsciiLetter(s[0]) then LetterWords(s[1..])
    else
      var n := LetterRun(s);
      [s[..n]] + LetterWords(s[n..])
  }

  predicate HasOneLetterWord(words: seq<string>) {
    exists k :: 0 <= k < |words| && |words[k]| == 1
  }

  /** A letter with no letter on either side. */
  predicate IsolatedLetter(s: string, i: int) {
    && 0 <= i < |s| && IsAsciiLetter(s[i])
    && (i == 0 || !IsAsciiLetter(s[i - 1]))
    && (i == |s| - 1 || !IsAsciiLetter(s[i + 1]))
  }

  lemma IsolatedShift(s: string, d: nat, i: int)
    requires 0 < d <= |s|
    requires !IsAsciiLetter(s[d - 1]) || (d < |s| && !IsAsciiLetter(s[d]))
    requires d <= i
    ensures IsolatedLetter(s, i) <==> IsolatedLetter(s[d..], i - d)
  {
  }

  /** A one-letter word is found exactly when some letter stands alone. */
  lemma {:induction false} OneLetterWordIffIsolated(s: string)
    ensures HasOneLetterWord(LetterWords(s)) <==> exists i :: IsolatedLetter(s, i)
    decreases |s|
  {
    if s == [] {
    } else if !IsAsciiLetter(s[0]) {
      OneLetterWordIffIsolated(s[1..]);
      forall i | 1 <= i ensures IsolatedLetter(s, i) <==> IsolatedLetter(s[1..], i - 1) {
        IsolatedShift(s, 1, i);
      }
      if exists i :: IsolatedLetter(s[1..], i) {
        var i :| IsolatedLetter(s[1..], i);
        assert IsolatedLetter(s, i + 1);
      }
    } else {
      var n := LetterRun(s);
      var rest := s[n..];
      var words := LetterWords(s);
      assert words == [s[..n]] + LetterWords(rest);
      OneLetterWordIffIsolated(rest);
      if n == 1 {
        assert |words[0]| == 1;
        assert IsolatedLetter(s, 0);
      } else {
        assert |words[0]| == n;
        forall i | 0 <= i < n ensures !IsolatedLetter(s, i) {
          if i + 1 < n {
            assert IsAsciiLetter(s[i + 1]);
          } else {
            assert IsAsciiLetter(s[i - 1]);
          }
        }
        HasOneLetterWordTail(s[..n], LetterWords(rest));
        if n < |s| {
          forall i | n <= i ensures IsolatedLetter(s, i) <==> IsolatedLetter(rest, i - n) {
            IsolatedShift(s, n, i);
          }
          if exists i :: IsolatedLetter(rest, i) {
            var i :| IsolatedLetter(rest, i);
            assert IsolatedLetter(s, i + n);
          }
        } else {
          assert rest == [];
        }
      }
    }
  }

  lemma HasOneLetterWordTail(w: string, words: seq<string>)
    requires |w| != 1
    ensures HasOneLetterWord([w] + words) <==> HasOneLetterWord(words)
  {
    if HasOneLetterWord(words) {
      var k :| 0 <= k < |words| && |words[k]| == 1;
      assert ([w] + words)[k + 1] == words[k];
    }
    if HasOneLetterWord([w] + words) {
      var k :| 0 <= k < |[w] + words| && |([w] + words)[k]| == 1;
      assert k > 0 && words[k - 1] == ([w] + words)[k];
    }
  }

  /** The rule check of `is_chinese_only`, applied to text whose URLs and
      emoji have already been removed: blank text passes; any kana of the
      forbidden ranges fails; any Latin letter standing alone fails;
      everything else (kanji, digits, symbols, longer Latin words) passes. */
  function IsChineseOnly(text: string): (ok: bool)
    ensures AllSpace(text) ==> ok
    ensures (exists i :: 0 <= i < |Strip(text)| && IsForbiddenKana(Strip(text)[i])) ==> !ok
  {
    var t := Strip(text);
    StripEmptyIffAllSpace(text);
    if t == [] then true
    else if exists i :: 0 <= i < |t| && IsForbiddenKana(t[i]) then false
    else if HasOneLetterWord(LetterWords(t)) then false
    else true
  }

  /** Stated without the word list: the stripped text passes exactly when
      it is blank, or has no forbidden kana and no isolated letter. */
  lemma IsChineseOnlyIff(text: string)
    ensures var t := Strip(text);
      IsChineseOnly(text) <==>
        (t == [] || ((forall i :: 0 <= i < |t| ==> !IsForbiddenKana(t[i]))
                     && (forall i :: !IsolatedLetter(t, i))))
  {
    OneLetterWordIffIsolated(Strip(text));
  }

  lemma ChineseTextPasses()
    ensures IsChineseOnly("我是日本人")
  {
    StripUntouched("我是日本人");
    IsChineseOnlyIff("我是日本人");
  }

  lemma KanaFails()
    ensures !IsChineseOnly("我是です")
  {
    StripUntouched("我是です");
    assert IsForbiddenKana("我是です"[2]);
  }

  lemma LoneLetterFails()
    ensures !IsChineseOnly("我 a 人")
  {
    StripUntouched("我 a 人");
    IsChineseOnlyIff("我 a 人");
    assert IsolatedLetter("我 a 人", 2);
  }

  lemma LatinWordPasses()
    ensures IsChineseOnly("我 ok 人")
  {
    var t := "我 ok 人";
    StripUntouched(t);
    NoForbiddenKanaInLatinWord();
    NoIsolatedLetterInLatinWord();
    PassesWhenClean(t);
  }

  lemma NoForbiddenKanaInLatinWord()
    ensures forall i :: 0 <= i < |"我 ok 人"| ==> !IsForbiddenKana("我 ok 人"[i])
  {
  }

  lemma NoIsolatedLetterInLatinWord()
    ensures forall i :: !IsolatedLetter("我 ok 人", i)
  {
    var t := "我 ok 人";
    forall i ensures !IsolatedLetter(t, i) {
      if 0 <= i < |t| && IsAsciiLetter(t[i]) {
        assert i == 2 || i == 3;
        assert IsAsciiLetter(t[2]) && IsAsciiLetter(t[3]);
      }
    }
  }

  /** Non-blank stripped text without forbidden kana or isolated letters
      passes. */
  lemma PassesWhenClean(text: string)
    requires forall i :: 0 <= i < |Strip(text)| ==> !IsForbiddenKana(Strip(text)[i])
    requires forall i :: !IsolatedLetter(Strip(text), i)
    ensures IsChineseOnly(text)
  {
    IsChineseOnlyIff(text);
  }

  /** One user's record in one guild. */
  datatype Violation = Violation(count: nat, hasRole: bool)

  /** Records keyed by (user id, guild id). */
  type Violations = map<(string, string), Violation>

  /** `add_violation`: counts one more violation, starting from a fresh
      record, and reports whether the count has reached 10. */
  function AddViolation(v: Violations, user: string, guild: string): (r: (Violations, bool))
    ensures (user, guild) in r.0
    ensures r.0[(user, guild)].count == (if (user, guild) in v then v[(user, guild)].count else 0) + 1
    ensures r.0[(user, guild)].hasRole == ((user, guild) in v && v[(user, guild)].hasRole)
    ensures r.1 <==> r.0[(user, guild)].count >= 10
    ensures forall k :: k != (user, guild) ==> (k in r.0 <==> k in v) && (k in v ==> r.0[k] == v[k])
  {
    var prev := if (user, guild) in v then v[(user, guild)] else Violation(0, false);
    var rec := prev.(count := prev.count + 1);
    (v[(user, guild) := rec], rec.count >= 10)
  }

  /** `set_illegal_role_flag`: marks an existing record; no record, no change. */
  function SetIllegalRoleFlag(v: Violations, user: string, guild: string): (r: Violations)
    ensures (user, guild) !in v ==> r == v
    ensures (user, guild) in v ==> r == v[(user, guild) := v[(user, guild)].(hasRole := true)]
  {
    if (user, guild) in v then v[(user, guild) := v[(user, guild)].(hasRole := true)] else v
  }

  /** `has_illegal_role`, False for a user without a record. */
  function HasIllegalRole(v: Violations, user: string, guild: string): (b: bool)
    ensures (user, guild) !in v ==> !b
  {
    (user, guild) in v && v[(user, guild)].hasRole
  }

  /** `resetviolations`: forgets the record. */
  function ResetViolations(v: Violations, user: string, guild: string): (r: Violations)
    ensures (user, guild) !in r
    ensures forall k :: k != (user, guild) ==> (k in r <==> k in v) && (k in v ==> r[k] == v[k])
  {
    map k | k in v && k != (user, guild) :: v[k]
  }

  /** The tenth violation is the first to report the limit, and marking the
      user then makes `has_illegal_role` true. */
  lemma TenthViolationReachesLimit(user: string, guild: string)
    ensures var v := Repeat(map[], user, guild, 9);
      && (user, guild) in v && v[(user, guild)].count == 9
      && AddViolation(v, user, guild).1
      && HasIllegalRole(SetIllegalRoleFlag(AddViolation(v, user, guild).0, user, guild), user, guild)
  {
    RepeatCount(user, guild, 9);
  }

  function Repeat(v: Violations, user: string, guild: string, n: nat): Violations {
    if n == 0 then v else AddViolation(Repeat(v, user, guild, n - 1), user, guild).0
  }

  lemma {:induction false} RepeatCount(user: string, guild: string, n: nat)
    ensures n > 0 ==> ((user, guild) in Repeat(map[], user, guild, n)
                       && Repeat(map[], user, guild, n)[(user, guild)].count == n
                       && (AddViolation(Repeat(map[], user, guild, n - 1), user, guild).1 <==> n >= 10))
  {
    if n > 1 {
      RepeatCount(user, guild, n - 1);
    }
  }

  /** `setchinesechannel`: appends the channel unless it is already listed. */
  function AddChineseChannel(channels: seq<string>, ch: string): (r: seq<string>)
    ensures ch in r
    ensures ch in channels ==> r == channels
    ensures ch !in channels ==> r == channels + [ch]
  {
    if ch in channels then channels else channels + [ch]
  }

  /** The position of the first occurrence of `x`, as `list.index`. */
  function FirstIndex(s: seq<string>, x: string): (i: nat)
    requires x in s
    ensures i < |s| && s[i] == x
    ensures forall j :: 0 <= j < i ==> s[j] != x
  {
    if s[0] == x then 0 else FirstIndex(s[1..], x) + 1
  }

  /** `list.remove`: drops the first occurrence. */
  function RemoveFirst(s: seq<string>, x: string): (r: seq<string>)
    requires x in s
    ensures |r| == |s| - 1
    ensures multiset(r) == multiset(s) - multiset{x}
  {
    assert s == [s[0]] + s[1..];
    if s[0] == x then s[1..]
    else [s[0]] + RemoveFirst(s[1..], x)
  }

  /** The rest of the list keeps its order: what comes before the first
      occurrence, then what comes after it. */
  lemma {:induction false} RemoveFirstKeepsOrder(s: seq<string>, x: string)
    requires x in s
    ensures RemoveFirst(s, x) == s[..FirstIndex(s, x)] + s[FirstIndex(s, x) + 1..]
  {
    if s[0] != x {
      var t := s[1..];
      RemoveFirstKeepsOrder(t, x);
      var j := FirstIndex(t, x);
      assert FirstIndex(s, x) == j + 1;
      ConsSplit(s, j);
    }
  }

  /** Splitting after the head and splitting the tail agree. */
  lemma ConsSplit(s: seq<string>, j: nat)
    requires j + 1 < |s|
    ensures [s[0]] + (s[1..][..j] + s[1..][j + 1..]) == s[..j + 1] + s[j + 2..]
  {
    assert s[..j + 1] == [s[0]] + s[1..][..j];
    assert s[j + 2..] == s[1..][j + 1..];
  }

  /** `removechinesechannel`: removes the first occurrence of a listed
      channel, the others keeping their order; otherwise no change. */
  function RemoveChineseChannel(channels: seq<string>, ch: string): (r: seq<string>)
    ensures ch !in channels ==> r == channels
    ensures ch in channels ==> multiset(r) == multiset(channels) - multiset{ch}
    ensures ch in channels ==> r == channels[..FirstIndex(channels, ch)] + channels[FirstIndex(channels, ch) + 1..]
  {
    if ch in channels then
      RemoveFirstKeepsOrder(channels, ch);
      RemoveFirst(channels, ch)
    else channels
  }

  predicate NoDuplicates(s: seq<string>) {
    forall i, j :: 0 <= i < j < |s| ==> s[i] != s[j]
  }

  /** Adding keeps the list free of duplicates; removing from such a list
      takes the channel out entirely; removing what was just added restores
      the list. */
  lemma ChannelListFacts(channels: seq<string>, ch: string)
    requires NoDuplicates(channels)
    ensures NoDuplicates(AddChineseChannel(channels, ch))
    ensures ch !in RemoveChineseChannel(channels, ch)
    ensures ch !in channels ==> RemoveChineseChannel(AddChineseChannel(channels, ch), ch) == channels
  {
    if ch in channels {
      RemoveUnique(channels, ch);
    } else {
      RemoveAppended(channels, ch);
    }
  }

  /** Removing from a list without duplicates leaves no occurrence. */
  lemma RemoveUnique(channels: seq<string>, ch: string)
    requires NoDuplicates(channels) && ch in channels
    ensures ch !in RemoveFirst(channels, ch)
  {
    var r := RemoveFirst(channels, ch);
    assert multiset(channels)[ch] == 1 by {
      CountOfUnique(channels, ch);
    }
    assert multiset(r)[ch] == 0;
  }

  lemma {:induction false} CountOfUnique(s: seq<string>, x: string)
    requires NoDuplicates(s) && x in s
    ensures multiset(s)[x] == 1
  {
    if s[0] == x {
      assert x !in s[1..];
      assert s == [s[0]] + s[1..];
    } else {
      CountOfUnique(s[1..], x);
      assert s == [s[0]] + s[1..];
    }
  }

  lemma RemoveAppended(s: seq<string>, x: string)
    requires x !in s
    ensures RemoveFirst(s + [x], x) == s
  {
    var i := FirstIndex(s + [x], x);
    assert i == |s|;
    RemoveFirstKeepsOrder(s + [x], x);
    assert (s + [x])[..|s|] == s;
  }
}
