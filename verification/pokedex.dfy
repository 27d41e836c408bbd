/** The Pokédex search: queries and names are folded from katakana to
    hiragana, entries whose name starts with the query are listed, and the
    list is paged ten at a time. */
module Pokedex {
  const PerPage: nat := 10

  predicate IsKatakana(c: char) {
    0x30A0 <= c as int <= 0x30FF
  }

  /** One code point: katakana moves down by 0x60 into the hiragana block. */
  function KanaFold(c: char): (r: char)
    ensures IsKatakana(c) ==> r as int == c as int - 0x60
    ensures !IsKatakana(c) ==> r == c
    ensures !IsKatakana(r)
  {
    if IsKatakana(c) then (c as int - 0x60) as char else c
  }

  /** `katakana_to_hiragana` */
  function KatakanaToHiragana(s: string): (r: string)
    ensures |r| == |s|
    ensures forall i :: 0 <= i < |s| ==> r[i] == KanaFold(s[i])
    ensures forall i :: 0 <= i < |r| ==> !IsKatakana(r[i])
  {
    if s == [] then [] else [KanaFold(s[0])] + KatakanaToHiragana(s[1..])
  }

  /** Folding twice is folding once: nothing folded is katakana any more. */
  lemma FoldIdempotent(s: string)
    ensures KatakanaToHiragana(KatakanaToHiragana(s)) == KatakanaToHiragana(s)
  {
    var t := KatakanaToHiragana(s);
    assert forall i :: 0 <= i < |t| ==> KanaFold(t[i]) == t[i];
  }

  /** A cached species. An empty string stands for a missing name. */
  datatype Species = Species(id: int, nameJaHrkt: string, nameJa: string, name: string)

  /** The name searched on: the kana name, else the Japanese name, else
      the English one; empty when there is none. */
  function Candidate(e: Species): (r: string)
    ensures e.nameJaHrkt != "" ==> r == e.nameJaHrkt
    ensures e.nameJaHrkt == "" && e.nameJa != "" ==> r == e.nameJa
    ensures e.nameJaHrkt == "" && e.nameJa == "" ==> r == e.name
  {
    if e.nameJaHrkt != "" then e.nameJaHrkt else if e.nameJa != "" then e.nameJa else e.name
  }

  predicate Matches(query: string, e: Species) {
    var c := Candidate(e);
    c != "" && var q := KatakanaToHiragana(query);
    |q| <= |c| && KatakanaToHiragana(c)[..|q|] == q
  }

  /** The reference result: the matching entries of `cache`, in cache order. */
  function Hits(cache: seq<Species>, query: string): seq<Species> {
    if cache == [] then []
    else
      var init := Hits(cache[..|cache| - 1], query);
      if Matches(query, cache[|cache| - 1]) then init + [cache[|cache| - 1]] else init
  }

  /** `_search_by_kana` */
  method SearchByKana(cache: seq<Species>, query: string) returns (out: seq<Species>)
    ensures out == Hits(cache, query)
    ensures forall e :: e in out <==> e in cache && Matches(query, e)
  {
    out := [];
    var i := 0;
    while i < |cache|
      invariant 0 <= i <= |cache|
      invariant out == Hits(cache[..i], query)
    {
      assert cache[..i + 1][..i] == cache[..i];
      if Matches(query, cache[i]) {
        out := out + [cache[i]];
      }
      i := i + 1;
    }
    assert cache[..|cache|] == cache;
    HitsMembers(cache, query);
  }

  /** An entry is a hit exactly when it is in the cache and matches. */
  lemma {:induction false} HitsMembers(cache: seq<Species>, query: string)
    ensures forall e :: e in Hits(cache, query) <==> e in cache && Matches(query, e)
  {
    if cache != [] {
      var init := cache[..|cache| - 1];
      HitsMembers(init, query);
      assert cache == init + [cache[|cache| - 1]];
    }
  }

  predicate IdsAscending(s: seq<Species>) {
    forall i, j :: 0 <= i < j < |s| ==> s[i].id <= s[j].id
  }

  /** The cache is kept sorted by id, and the hits keep that order. */
  lemma {:induction false} HitsAscending(cache: seq<Species>, query: string)
    requires IdsAscending(cache)
    ensures IdsAscending(Hits(cache, query))
  {
    if cache != [] {
      var init := cache[..|cache| - 1];
      var last := cache[|cache| - 1];
      assert IdsAscending(init);
      HitsAscending(init, query);
      HitsMembers(init, query);
      var h := Hits(init, query);
      if Matches(query, last) {
        forall i | 0 <= i < |h| ensures h[i].id <= last.id {
          assert h[i] in init;
        }
      }
    }
  }

  /** The pager; only the page number changes. */
  datatype Pager = Pager(count: nat, page: nat)

  /** The page starts inside the list (or is the first page of an empty
      one). `Prev` and `Next` keep this, but `OpenAsWritten` can break it. */
  predicate PagerOk(v: Pager) {
    v.page == 0 || v.page * PerPage < v.count
  }

  /** `prev` */
  function Prev(v: Pager): (r: Pager)
    ensures r.count == v.count
    ensures r.page == if v.page > 0 then v.page - 1 else 0
    ensures PagerOk(v) ==> PagerOk(r)
  {
    if v.page > 0 then v.(page := v.page - 1) else v
  }

  /** `next` */
  function Next(v: Pager): (r: Pager)
    ensures r.count == v.count
    ensures (v.page + 1) * PerPage < v.count ==> r.page == v.page + 1
    ensures (v.page + 1) * PerPage >= v.count ==> r.page == v.page
    ensures PagerOk(v) ==> PagerOk(r)
  {
    if (v.page + 1) * PerPage < v.count then v.(page := v.page + 1) else v
  }

  /** `page_idx = max(1, page) - 1`: the view the command opens on the
      `count` hits, from the 1-based page the user typed. Nothing bounds
      the page from above. */
  function OpenAsWritten(count: nat, page: int): (r: Pager)
    ensures r.count == count
    ensures page >= 1 ==> r.page == page - 1
    ensures page < 1 ==> r.page == 0
  {
    Pager(count, if page > 1 then page - 1 else 0)
  }

  /** The opened view is in range exactly when the typed page is at most
      1 or its first entry exists. */
  lemma OpenOkIff(count: nat, page: int)
    ensures PagerOk(OpenAsWritten(count, page)) <==> page <= 1 || (page - 1) * PerPage < count
  {
  }

  /** Three hits opened at page 50: page index 49 shows nothing, `Next`
      stays put and `Prev` only moves to another empty page. */
  lemma OpenPastEndShowsNothing<T>(entries: seq<T>)
    requires |entries| == 3
    ensures var v := OpenAsWritten(3, 50);
      && v.page == 49
      && !PagerOk(v)
      && Shown(entries, v.page) == []
      && Next(v) == v
      && Shown(entries, Prev(v).page) == []
  {
  }

  /** The index of the last page of `count` entries (0 when there are
      none). */
  function LastPage(count: nat): (r: nat)
    ensures count == 0 ==> r == 0
    ensures count > 0 ==> r * PerPage < count <= (r + 1) * PerPage
  {
    if count == 0 then 0 else (count - 1) / PerPage
  }

  /** The evidently intended open: the typed page, clamped to the pages
      the list has. */
  function Open(count: nat, page: int): (r: Pager)
    ensures r.count == count
    ensures r.page == if OpenAsWritten(count, page).page <= LastPage(count)
                      then OpenAsWritten(count, page).page else LastPage(count)
    ensures PagerOk(r)
  {
    var v := OpenAsWritten(count, page);
    if v.page <= LastPage(count) then v else v.(page := LastPage(count))
  }

  /** A button press on the view. */
  datatype Press = PrevPress | NextPress

  /** The view after a sequence of presses. */
  function Drive(v: Pager, presses: seq<Press>): (r: Pager)
    ensures r.count == v.count
    decreases |presses|
  {
    if presses == [] then v
    else Drive(if presses[0] == PrevPress then Prev(v) else Next(v), presses[1..])
  }

  /** Presses keep an in-range view in range. */
  lemma {:induction false} DriveKeepsOk(v: Pager, presses: seq<Press>)
    requires PagerOk(v)
    ensures PagerOk(Drive(v, presses))
    decreases |presses|
  {
    if presses != [] {
      DriveKeepsOk(if presses[0] == PrevPress then Prev(v) else Next(v), presses[1..]);
    }
  }

  /** With the clamped open, every view the user reaches shows entries. */
  lemma OpenedViewsNonEmpty<T>(entries: seq<T>, page: int, presses: seq<Press>)
    requires |entries| > 0
    ensures Shown(entries, Drive(Open(|entries|, page), presses).page) != []
  {
    DriveKeepsOk(Open(|entries|, page), presses);
    ReachablePageNonEmpty(entries, Drive(Open(|entries|, page), presses));
  }

  /** Python's `entries[lo:hi]` for `0 <= lo <= hi`. */
  function PySlice<T>(s: seq<T>, lo: nat, hi: nat): (r: seq<T>)
    requires lo <= hi
    ensures |r| <= hi - lo
  {
    if lo >= |s| then [] else if hi >= |s| then s[lo..] else s[lo..hi]
  }

  /** The entries shown on the pager's page. */
  function Shown<T>(entries: seq<T>, page: nat): (r: seq<T>)
    ensures |r| <= PerPage
  {
    PySlice(entries, page * PerPage, page * PerPage + PerPage)
  }

  /** Entry `i` appears on page `i / 10`, at position `i % 10`, and a
      reachable page is never empty. */
  lemma EntryOnPage<T>(entries: seq<T>, i: nat)
    requires i < |entries|
    ensures var p := Shown(entries, i / PerPage);
      i % PerPage < |p| && p[i % PerPage] == entries[i]
  {
  }

  lemma ReachablePageNonEmpty<T>(entries: seq<T>, v: Pager)
    requires v.count == |entries| > 0 && PagerOk(v)
    ensures Shown(entries, v.page) != []
  {
  }
}
