/** The substitution behind the Chinese-only channel of the channel manager:
    every hiragana of the table, and a few katakana and the long-vowel mark,
    is replaced by a kanji (or a dash) of similar sound; everything else is
    copied. A message is reposted exactly when the substitution changed it. */
module KanaCipher {
  import opened Common

  /** `_create_chinese_map`, one case per dictionary entry. */
  function ChineseMap(c: char): Option<char> {
    match c
    case 'あ' => Some('阿') case 'い' => Some('伊') case 'う' => Some('宇') case 'え' => Some('江') case 'お' => Some('於')
    case 'か' => Some('加') case 'き' => Some('基') case 'く' => Some('久') case 'け' => Some('計') case 'こ' => Some('古')
    case 'が' => Some('雅') case 'ぎ' => Some('義') case 'ぐ' => Some('具') case 'げ' => Some('下') case 'ご' => Some('語')
    case 'さ' => Some('佐') case 'し' => Some('師') case 'す' => Some('須') case 'せ' => Some('世') case 'そ' => Some('曽')
    case 'ざ' => Some('座') case 'じ' => Some('次') case 'ず' => Some('図') case 'ぜ' => Some('是') case 'ぞ' => Some('造')
    case 'た' => Some('太') case 'ち' => Some('地') case 'つ' => Some('津') case 'て' => Some('天') case 'と' => Some('都')
    case 'だ' => Some('打') case 'ぢ' => Some('遅') case 'づ' => Some('豆') case 'で' => Some('出') case 'ど' => Some('度')
    case 'な' => Some('奈') case 'に' => Some('二') case 'ぬ' => Some('奴') case 'ね' => Some('根') case 'の' => Some('野')
    case 'は' => Some('波') case 'ひ' => Some('比') case 'ふ' => Some('風') case 'へ' => Some('変') case 'ほ' => Some('保')
    case 'ば' => Some('馬') case 'び' => Some('美') case 'ぶ' => Some('武') case 'べ' => Some('部') case 'ぼ' => Some('母')
    case 'ぱ' => Some('巴') case 'ぴ' => Some('皮') case 'ぷ' => Some('普') case 'ぺ' => Some('辺') case 'ぽ' => Some('歩')
    case 'ま' => Some('真') case 'み' => Some('美') case 'む' => Some('無') case 'め' => Some('女') case 'も' => Some('母')
    case 'や' => Some('也') case 'ゆ' => Some('由') case 'よ' => Some('与')
    case 'ら' => Some('良') case 'り' => Some('利') case 'る' => Some('流') case 'れ' => Some('礼') case 'ろ' => Some('路')
    case 'わ' => Some('和') case 'ゐ' => Some('井') case 'ゑ' => Some('恵') case 'を' => Some('乎') case 'ん' => Some('无')
    case 'ー' => Some('―') case 'ッ' => Some('津') case 'ャ' => Some('也') case 'ュ' => Some('由') case 'ョ' => Some('与')
    case _ => None
  }

  predicate IsKey(c: char) { ChineseMap(c).Some? }

  /** Every key is a kana or the long-vowel mark (U+3040..U+30FF). */
  lemma KeysAreKana(c: char)
    ensures IsKey(c) ==> '\U{3040}' <= c <= '\U{30FF}'
  {
  }

  /** Every replacement is a CJK ideograph or the horizontal bar U+2015. */
  lemma ValuesAreKanji(c: char)
    requires IsKey(c)
    ensures var v := ChineseMap(c).value; v == '\U{2015}' || '\U{4E00}' <= v <= '\U{9FFF}'
  {
  }

  /** No replacement is itself a key of the table. */
  lemma ValuesAreNotKeys(c: char)
    requires IsKey(c)
    ensures !IsKey(ChineseMap(c).value)
    ensures ChineseMap(c).value != c
  {
    ValuesAreKanji(c);
    KeysAreKana(c);
    KeysAreKana(ChineseMap(c).value);
  }

  function ConvertChar(c: char): char {
    match ChineseMap(c)
    case Some(v) => v
    case None => c
  }

  /** `convert_to_chinese`: the table applied character by character. */
  function ConvertToChinese(text: string): (r: string)
    ensures |r| == |text|
    ensures forall i :: 0 <= i < |text| && !IsKey(text[i]) ==> r[i] == text[i]
    ensures forall i :: 0 <= i < |text| && IsKey(text[i]) ==> r[i] == ChineseMap(text[i]).value
  {
    if text == [] then [] else [ConvertChar(text[0])] + ConvertToChinese(text[1..])
  }

  /** No key survives the conversion. */
  lemma ConvertedHasNoKeys(text: string)
    ensures forall i :: 0 <= i < |text| ==> !IsKey(ConvertToChinese(text)[i])
  {
    forall i | 0 <= i < |text| ensures !IsKey(ConvertToChinese(text)[i]) {
      if IsKey(text[i]) {
        ValuesAreNotKeys(text[i]);
      }
    }
  }

  /** Converting twice is converting once. */
  lemma ConvertIdempotent(text: string)
    ensures ConvertToChinese(ConvertToChinese(text)) == ConvertToChinese(text)
  {
    ConvertedHasNoKeys(text);
  }

  /** The change test of `_handle_chinese_channel`: the converted text
      differs from the message exactly when the message holds a key. */
  lemma ChangedIffHasKey(text: string)
    ensures ConvertToChinese(text) != text <==> exists i :: 0 <= i < |text| && IsKey(text[i])
  {
    if exists i :: 0 <= i < |text| && IsKey(text[i]) {
      var i :| 0 <= i < |text| && IsKey(text[i]);
      ValuesAreNotKeys(text[i]);
      assert ConvertToChinese(text)[i] != text[i];
    } else {
      assert ConvertToChinese(text) == text;
    }
  }

  /** Distinct messages can convert to the same text, so the conversion
      cannot be undone. */
  lemma NotInjective()
    ensures ConvertToChinese("み") == ConvertToChinese("び") == "美"
  {
    ConvertSingle('み');
    ConvertSingle('び');
  }

  lemma ConvertSingle(c: char)
    ensures ConvertToChinese([c]) == [ConvertChar(c)]
  {
  }
}
