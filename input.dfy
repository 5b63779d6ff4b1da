/**
 * The input handler: the viewer's sort, scroll, search and exit state, and
 * the way one key press (an ncurses key code from getch) changes it. The
 * search prompt reads further keys until ESC or Enter; those keys are given
 * to the model as a sequence.
 */
module Input {
  import opened CTypes

  // ncurses key codes
  const ERR: int := -1
  const ESC: int := 27
  const NEWLINE: int := 10
  const DEL: int := 127
  const CTRL_H: int := 8
  const KEY_DOWN: int := 258
  const KEY_UP: int := 259
  const KEY_BACKSPACE: int := 263
  const KEY_F0: int := 264
  const KEY_NPAGE: int := 338
  const KEY_PPAGE: int := 339
  const KEY_ENTER: int := 343

  /** KEY_F(n) */
  function KeyF(n: int): int
  {
    KEY_F0 + n
  }

  /** The search term holds at most this many characters (a 256-byte C string). */
  const MAX_TERM: int := 255

  /** Rows moved by Page Up and Page Down. */
  const PAGE: int := 10

  /** The fields of the InputState struct, as a value. */
  datatype InputView = InputView(
    sortCpu: bool,
    sortMem: bool,
    reversed: bool,
    scrollOffset: int,
    shouldExit: bool,
    searchTerm: string)

  /** input_init: sort by CPU, descending, at the top, no filter. */
  function InitialInput(): (v: InputView)
    ensures v.sortCpu && !v.sortMem && !v.reversed && !v.shouldExit
    ensures v.scrollOffset == 0 && v.searchTerm == ""
  {
    InputView(true, false, false, 0, false, "")
  }

  predicate IsBackspace(ch: int)
  {
    ch == KEY_BACKSPACE || ch == DEL || ch == CTRL_H
  }

  predicate IsEnter(ch: int)
  {
    ch == NEWLINE || ch == KEY_ENTER
  }

  /** A key the search prompt appends: printable ASCII. */
  predicate IsPrintable(ch: int)
  {
    32 <= ch < 127
  }

  /** The characters of a term are all printable ASCII. */
  predicate PrintableTerm(term: string)
  {
    forall k :: 0 <= k < |term| ==> IsPrintable(term[k] as int)
  }

  /**
   * The search term an interactive search session leaves, starting from
   * `term` and reading `keys`: ERR is skipped, ESC clears the term and ends
   * the session, backspace removes the last character, Enter ends the
   * session keeping the term, a printable key is appended while the term is
   * shorter than 255 characters, any other key is ignored. The session also
   * ends when the keys run out.
   */
  function SearchSession(term: string, keys: seq<int>): (r: string)
    decreases |keys|
  {
    if keys == [] then term
    else
      var ch := keys[0];
      if ch == ERR then SearchSession(term, keys[1..])
      else if ch == ESC then ""
      else if IsBackspace(ch) then
        SearchSession(if |term| > 0 then term[..|term| - 1] else term, keys[1..])
      else if IsEnter(ch) then term
      else if IsPrintable(ch) && |term| < MAX_TERM then
        SearchSession(term + [ch as char], keys[1..])
      else SearchSession(term, keys[1..])
  }

  /** A search session never grows the term past 255 characters. */
  lemma {:induction false} SearchBounded(term: string, keys: seq<int>)
    requires |term| <= MAX_TERM
    ensures |SearchSession(term, keys)| <= MAX_TERM
    decreases |keys|
  {
    if keys != [] {
      var ch := keys[0];
      if ch == ERR || (!IsBackspace(ch) && ch != ESC && !IsEnter(ch)) {
        if IsPrintable(ch) && |term| < MAX_TERM {
          SearchBounded(term + [ch as char], keys[1..]);
        } else {
          SearchBounded(term, keys[1..]);
        }
      } else if IsBackspace(ch) && ch != ERR && ch != ESC {
        SearchBounded(if |term| > 0 then term[..|term| - 1] else term, keys[1..]);
      }
    }
  }

  /** A search session keeps the term printable: only printable keys are ever stored. */
  lemma {:induction false} SearchPrintable(term: string, keys: seq<int>)
    requires PrintableTerm(term)
    ensures PrintableTerm(SearchSession(term, keys))
    decreases |keys|
  {
    if keys != [] {
      var ch := keys[0];
      if ch == ERR || (!IsBackspace(ch) && ch != ESC && !IsEnter(ch)) {
        if IsPrintable(ch) && |term| < MAX_TERM {
          var t := term + [ch as char];
          assert forall k :: 0 <= k < |t| ==> t[k] == if k < |term| then term[k] else ch as char;
          SearchPrintable(t, keys[1..]);
        } else {
          SearchPrintable(term, keys[1..]);
        }
      } else if IsBackspace(ch) && ch != ERR && ch != ESC {
        SearchPrintable(if |term| > 0 then term[..|term| - 1] else term, keys[1..]);
      }
    }
  }

  /** The key codes of a string's characters. */
  function Codes(s: string): (keys: seq<int>)
    ensures |keys| == |s|
    ensures forall k :: 0 <= k < |s| ==> keys[k] == s[k] as int
  {
    if s == [] then [] else [s[0] as int] + Codes(s[1..])
  }

  /** A printable key read while the term is below the limit is appended. */
  lemma AppendStep(term: string, ch: int, rest: seq<int>)
    requires IsPrintable(ch) && |term| < MAX_TERM
    ensures SearchSession(term, [ch] + rest) == SearchSession(term + [ch as char], rest)
  {
    var keys := [ch] + rest;
    assert keys != [] && keys[0] == ch && keys[1..] == rest;
    assert ch != ERR && ch != ESC && !IsBackspace(ch) && !IsEnter(ch);
  }

  lemma MoveFirst(a: string, t: string)
    requires |t| > 0
    ensures a + [t[0]] + t[1..] == a + t
  {
    assert [t[0]] + t[1..] == t;
  }

  /** Typing printable text and pressing Enter appends the text to the term, up to the limit. */
  lemma {:induction false} TypeThenEnter(term: string, text: string)
    requires PrintableTerm(text) && |term| + |text| <= MAX_TERM
    ensures SearchSession(term, Codes(text) + [NEWLINE]) == term + text
    decreases |text|
  {
    if text == [] {
      assert Codes(text) + [NEWLINE] == [NEWLINE];
    } else {
      var ch := text[0] as int;
      var rest := Codes(text[1..]) + [NEWLINE];
      assert Codes(text) + [NEWLINE] == [ch] + rest;
      assert IsPrintable(ch) && ch as char == text[0];
      AppendStep(term, ch, rest);
      assert PrintableTerm(text[1..]) by {
        forall k | 0 <= k < |text[1..]|
          ensures IsPrintable(text[1..][k] as int)
        {
          assert text[1..][k] == text[k + 1];
        }
      }
      TypeThenEnter(term + [text[0]], text[1..]);
      MoveFirst(term, text);
    }
  }

  /** Escape ends the session with an empty term, whatever was typed. */
  lemma EscapeClears(term: string, keys: seq<int>)
    ensures SearchSession(term, [ESC] + keys) == ""
  {
  }

  /** Backspace on an empty term leaves it empty, and Enter ends the session with the term as typed. */
  lemma BackspaceAndEnter(term: string, keys: seq<int>)
    ensures SearchSession("", [KEY_BACKSPACE] + keys) == SearchSession("", keys)
    ensures SearchSession(term, [NEWLINE] + keys) == term
    ensures SearchSession(term, [KEY_ENTER] + keys) == term
  {
    assert ([KEY_BACKSPACE] + keys)[1..] == keys;
  }

  /** Clamping of the scroll offset after a handled key: not negative, and below count when count is positive. */
  function ClampScroll(offset: int, count: int): (r: int)
    ensures 0 <= r
    ensures count > 0 ==> r < count
    ensures count <= 0 ==> r == 0
    ensures 0 <= offset < count ==> r == offset
    ensures offset < 0 ==> r == 0
    ensures offset >= count ==> r == Max(count - 1, 0)
  {
    var nonNegative := if offset < 0 then 0 else offset;
    if nonNegative >= count then (if count - 1 < 0 then 0 else count - 1)
    else nonNegative
  }

  /** What the switch in input_handle does to the state, before the scroll offset is clamped. */
  function ApplyKey(v: InputView, ch: int, searchKeys: seq<int>): (r: InputView)
  {
    if ch == 'c' as int || ch == 'C' as int then
      if v.sortCpu then v.(sortCpu := false) else v.(sortCpu := true, sortMem := false)
    else if ch == 'm' as int || ch == 'M' as int then
      if v.sortMem then v.(sortMem := false) else v.(sortCpu := false, sortMem := true)
    else if ch == 'r' as int || ch == 'R' as int then
      v.(reversed := !v.reversed)
    else if ch == KEY_UP then
      if v.scrollOffset > 0 then v.(scrollOffset := v.scrollOffset - 1) else v
    else if ch == KEY_DOWN then
      v.(scrollOffset := v.scrollOffset + 1)
    else if ch == KEY_PPAGE then
      v.(scrollOffset := if v.scrollOffset - PAGE < 0 then 0 else v.scrollOffset - PAGE)
    else if ch == KEY_NPAGE then
      v.(scrollOffset := v.scrollOffset + PAGE)
    else if ch == KeyF(3) || ch == 'f' as int || ch == '/' as int then
      v.(searchTerm := SearchSession(v.searchTerm, searchKeys))
    else if ch == 'q' as int || ch == 'Q' as int then
      v.(shouldExit := true)
    else if ch == ESC then
      v.(searchTerm := "")
    else
      v
  }

  /**
   * input_handle for one key: ERR leaves the state alone; any other key is
   * applied and then the scroll offset is clamped to the `count` rows of
   * the previous snapshot. During a search, `searchKeys` are the keys read
   * by the search prompt. The kill keys (F9, k, K) change no state.
   */
  function HandleKey(v: InputView, ch: int, count: int, searchKeys: seq<int>): (r: InputView)
  {
    if ch == ERR then v
    else
      var a := ApplyKey(v, ch, searchKeys);
      a.(scrollOffset := ClampScroll(a.scrollOffset, count))
  }

  /** ERR changes nothing; every other key leaves the offset within [0, count) (0 when count is not positive). */
  lemma ScrollClamped(v: InputView, ch: int, count: int, searchKeys: seq<int>)
    ensures ch == ERR ==> HandleKey(v, ch, count, searchKeys) == v
    ensures ch != ERR ==> 0 <= HandleKey(v, ch, count, searchKeys).scrollOffset
    ensures ch != ERR && count > 0 ==> HandleKey(v, ch, count, searchKeys).scrollOffset < count
    ensures ch != ERR && count <= 0 ==> HandleKey(v, ch, count, searchKeys).scrollOffset == 0
  {
  }

  /** The scrolling keys move the offset by one row or one page, stopping at the first and last row. */
  lemma ScrollKeys(v: InputView, count: int, searchKeys: seq<int>)
    requires 0 <= v.scrollOffset < count
    ensures HandleKey(v, KEY_DOWN, count, searchKeys).scrollOffset == Min(v.scrollOffset + 1, count - 1)
    ensures HandleKey(v, KEY_UP, count, searchKeys).scrollOffset == Max(v.scrollOffset - 1, 0)
    ensures HandleKey(v, KEY_NPAGE, count, searchKeys).scrollOffset == Min(v.scrollOffset + PAGE, count - 1)
    ensures HandleKey(v, KEY_PPAGE, count, searchKeys).scrollOffset == Max(v.scrollOffset - PAGE, 0)
  {
  }

  /**
   * At most one sort key is active, 'c' or 'm' always leaves at most one
   * active, and no other key touches either sort flag.
   */
  lemma SortFlagsExclusive(v: InputView, ch: int, count: int, searchKeys: seq<int>)
    ensures !(v.sortCpu && v.sortMem) ==> !(HandleKey(v, ch, count, searchKeys).sortCpu && HandleKey(v, ch, count, searchKeys).sortMem)
    ensures ch in {'c' as int, 'C' as int, 'm' as int, 'M' as int} ==>
      !(HandleKey(v, ch, count, searchKeys).sortCpu && HandleKey(v, ch, count, searchKeys).sortMem)
    ensures ch !in {'c' as int, 'C' as int, 'm' as int, 'M' as int} ==>
      HandleKey(v, ch, count, searchKeys).sortCpu == v.sortCpu && HandleKey(v, ch, count, searchKeys).sortMem == v.sortMem
  {
  }

  /** 'c' toggles CPU sorting: off when it was on, otherwise on with memory sorting off. 'm' is symmetric. */
  lemma SortToggles(v: InputView, count: int, searchKeys: seq<int>)
    ensures v.sortCpu ==>
      (!HandleKey(v, 'c' as int, count, searchKeys).sortCpu && HandleKey(v, 'c' as int, count, searchKeys).sortMem == v.sortMem)
    ensures !v.sortCpu ==>
      (HandleKey(v, 'c' as int, count, searchKeys).sortCpu && !HandleKey(v, 'c' as int, count, searchKeys).sortMem)
    ensures v.sortMem ==>
      (!HandleKey(v, 'm' as int, count, searchKeys).sortMem && HandleKey(v, 'm' as int, count, searchKeys).sortCpu == v.sortCpu)
    ensures !v.sortMem ==>
      (HandleKey(v, 'm' as int, count, searchKeys).sortMem && !HandleKey(v, 'm' as int, count, searchKeys).sortCpu)
  {
  }

  /** 'r' flips the order and nothing else but the clamped offset; pressing it twice restores the order. */
  lemma ReverseFlips(v: InputView, count: int, searchKeys: seq<int>)
    ensures HandleKey(v, 'r' as int, count, searchKeys)
      == v.(reversed := !v.reversed, scrollOffset := ClampScroll(v.scrollOffset, count))
    ensures HandleKey(HandleKey(v, 'R' as int, count, searchKeys), 'r' as int, count, searchKeys).reversed == v.reversed
  {
  }

  /** 'q' requests exit, and no key ever withdraws an exit request. */
  lemma ExitRequests(v: InputView, ch: int, count: int, searchKeys: seq<int>)
    ensures HandleKey(v, 'q' as int, count, searchKeys).shouldExit
    ensures HandleKey(v, 'Q' as int, count, searchKeys).shouldExit
    ensures v.shouldExit ==> HandleKey(v, ch, count, searchKeys).shouldExit
    ensures ch !in {'q' as int, 'Q' as int} ==> HandleKey(v, ch, count, searchKeys).shouldExit == v.shouldExit
  {
  }

  /** ESC clears the filter; the kill keys and unknown keys change nothing but the clamped offset. */
  lemma OtherKeys(v: InputView, ch: int, count: int, searchKeys: seq<int>)
    ensures HandleKey(v, ESC, count, searchKeys).searchTerm == ""
    ensures ch in {KeyF(9), 'k' as int, 'K' as int} ==>
      HandleKey(v, ch, count, searchKeys) == v.(scrollOffset := ClampScroll(v.scrollOffset, count))
  {
  }

  /** Pressing ESC twice leaves the same state as pressing it once. */
  lemma EscapeIdempotent(v: InputView, count: int, searchKeys: seq<int>)
    ensures HandleKey(HandleKey(v, ESC, count, searchKeys), ESC, count, searchKeys) == HandleKey(v, ESC, count, searchKeys)
  {
  }

  /** Every key keeps the search term within 255 characters. */
  lemma TermBounded(v: InputView, ch: int, count: int, searchKeys: seq<int>)
    requires |v.searchTerm| <= MAX_TERM
    ensures |HandleKey(v, ch, count, searchKeys).searchTerm| <= MAX_TERM
  {
    SearchBounded(v.searchTerm, searchKeys);
  }

  /** The search keys are read only by the search keys ('f', '/', F3); every other key keeps the term or clears it. */
  lemma SearchOnlyOnSearchKeys(v: InputView, ch: int, count: int, searchKeys: seq<int>)
    ensures ch in {KeyF(3), 'f' as int, '/' as int} ==>
      HandleKey(v, ch, count, searchKeys).searchTerm == SearchSession(v.searchTerm, searchKeys)
    ensures ch !in {KeyF(3), 'f' as int, '/' as int, ESC} ==>
      HandleKey(v, ch, count, searchKeys).searchTerm == v.searchTerm
  {
  }

  /** The InputState struct, updated in place by input_handle. */
  class InputState {
    var sortCpu: bool
    var sortMem: bool
    var reversed: bool
    var scrollOffset: int
    var shouldExit: bool
    var searchTerm: string

    function View(): InputView
      reads this
    {
      InputView(sortCpu, sortMem, reversed, scrollOffset, shouldExit, searchTerm)
    }

    /** The term fits the 256-byte buffer and the offset is never negative. */
    predicate Valid()
      reads this
    {
      |searchTerm| <= MAX_TERM && 0 <= scrollOffset
    }

    /** input_init */
    constructor ()
      ensures View() == InitialInput()
      ensures Valid()
    {
      sortCpu := true;
      sortMem := false;
      reversed := false;
      scrollOffset := 0;
      shouldExit := false;
      searchTerm := "";
    }

    /** handle_search_interactive: edits the term until ESC, Enter or the end of the keys. */
    method SearchInteractive(keys: seq<int>)
      modifies this
      ensures searchTerm == SearchSession(old(searchTerm), keys)
      ensures sortCpu == old(sortCpu) && sortMem == old(sortMem) && reversed == old(reversed)
      ensures scrollOffset == old(scrollOffset) && shouldExit == old(shouldExit)
    {
      var i := 0;
      var inSearch := true;
      while inSearch && i < |keys|
        invariant 0 <= i <= |keys|
        invariant inSearch ==> SearchSession(searchTerm, keys[i..]) == SearchSession(old(searchTerm), keys)
        invariant !inSearch ==> searchTerm == SearchSession(old(searchTerm), keys)
        invariant sortCpu == old(sortCpu) && sortMem == old(sortMem) && reversed == old(reversed)
        invariant scrollOffset == old(scrollOffset) && shouldExit == old(shouldExit)
        decreases |keys| - i
      {
        var ch := keys[i];
        assert keys[i..][0] == ch && keys[i..][1..] == keys[i + 1..];
        if ch == ERR {
        } else if ch == ESC {
          searchTerm := "";
          inSearch := false;
        } else if IsBackspace(ch) {
          if |searchTerm| > 0 {
            searchTerm := searchTerm[..|searchTerm| - 1];
          }
        } else if IsEnter(ch) {
          inSearch := false;
        } else if IsPrintable(ch) && |searchTerm| < MAX_TERM {
          searchTerm := searchTerm + [ch as char];
        }
        i := i + 1;
      }
    }

    /** The switch of input_handle. */
    method Apply(ch: int, searchKeys: seq<int>)
      modifies this
      ensures View() == ApplyKey(old(View()), ch, searchKeys)
    {
      if ch == 'c' as int || ch == 'C' as int {
        if sortCpu {
          sortCpu := false;
        } else {
          sortCpu := true;
          sortMem := false;
        }
      } else if ch == 'm' as int || ch == 'M' as int {
        if sortMem {
          sortMem := false;
        } else {
          sortCpu := false;
          sortMem := true;
        }
      } else if ch == 'r' as int || ch == 'R' as int {
        reversed := !reversed;
      } else if ch == KEY_UP {
        if scrollOffset > 0 {
          scrollOffset := scrollOffset - 1;
        }
      } else if ch == KEY_DOWN {
        scrollOffset := scrollOffset + 1;
      } else if ch == KEY_PPAGE {
        scrollOffset := scrollOffset - PAGE;
        if scrollOffset < 0 {
          scrollOffset := 0;
        }
      } else if ch == KEY_NPAGE {
        scrollOffset := scrollOffset + PAGE;
      } else if ch == KeyF(3) || ch == 'f' as int || ch == '/' as int {
        SearchInteractive(searchKeys);
      } else if ch == 'q' as int || ch == 'Q' as int {
        shouldExit := true;
      } else if ch == ESC {
        if searchTerm != "" {
          searchTerm := "";
        }
      }
    }

    /**
     * input_handle for the key `ch`, with `count` rows in the previous
     * snapshot and `searchKeys` read by the search prompt if one opens.
     */
    method Handle(ch: int, count: int, searchKeys: seq<int>)
      requires Valid()
      modifies this
      ensures View() == HandleKey(old(View()), ch, count, searchKeys)
      ensures Valid()
    {
      TermBounded(View(), ch, count, searchKeys);
      if ch == ERR {
        return;
      }
      Apply(ch, searchKeys);
      if scrollOffset < 0 {
        scrollOffset := 0;
      }
      if scrollOffset >= count {
        scrollOffset := count - 1;
        if scrollOffset < 0 {
          scrollOffset := 0;
        }
      }
    }
  }
}
