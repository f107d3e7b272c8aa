/**
 * The menu extractor of meal_calculator.py: `MenuItem` and the
 * `MenuHTMLParser` state machine, driven by the start-tag, end-tag, text
 * and character-reference callbacks of an HTML tokenizer.
 *
 * Each callback is given twice: as a pure function from one parser state
 * to the next (OnStartTag, OnEndTag, OnData, OnCharRef), which the lemmas
 * reason about, and as a method of the class `MenuHTMLParser`, which
 * updates the fields in place and is proved to follow that function.
 * Tokenizing the HTML text itself is not modelled: a document is given as
 * the sequence of callbacks it produces.
 */
module Menu {
  import opened Wrappers
  import opened Text

  /** One dish: its name and its price in yen. */
  datatype MenuItem = MenuItem(name: string, price: int)

  /** What the text that follows feeds: `_capture_text` is "name" or "price". */
  datatype Capture = CaptureName | CapturePrice

  /** An attribute as the tokenizer reports it: a name and a value, absent for a bare attribute. */
  type Attr = (string, Option<string>)

  /** One callback of the tokenizer. */
  datatype Event =
    | Start(tag: string, attrs: seq<Attr>)
    | End(tag: string)
    | Data(text: string)
    | CharRef(code: string)

  /** The fields of a parser: `_stack`, `_current_name`, `_current_price`, `_capture_text`, `_items`. */
  datatype ParserState = ParserState(
    stack: seq<string>,
    name: Option<string>,
    price: Option<int>,
    capture: Option<Capture>,
    items: seq<MenuItem>)

  /** The state `__init__` sets up: nothing open, nothing pending, nothing emitted. */
  function Initial(): ParserState {
    ParserState([], None, None, None, [])
  }

  /** `dict(attrs).get(key)`: the value of the LAST attribute called `key`, or `None` when there is none. */
  function AttrGet(attrs: seq<Attr>, key: string): (r: Option<Option<string>>)
    ensures r.None? <==> forall k :: 0 <= k < |attrs| ==> attrs[k].0 != key
    ensures r.Some? ==> exists k :: 0 <= k < |attrs| && attrs[k] == (key, r.value)
                                    && forall j :: k < j < |attrs| ==> attrs[j].0 != key
  {
    if attrs == [] then None
    else if attrs[|attrs| - 1].0 == key then Some(attrs[|attrs| - 1].1)
    else AttrGet(attrs[..|attrs| - 1], key)
  }

  /**
   * A tag whose class attribute, if it has one, carries a value. On a bare
   * `class` attribute the source's `"name" in cls` raises TypeError.
   */
  predicate ClassHasValue(attrs: seq<Attr>) {
    AttrGet(attrs, "class") != Some(None)
  }

  /** `attrs_dict.get("class", "")`. */
  function ClassValue(attrs: seq<Attr>): string
    requires ClassHasValue(attrs)
  {
    match AttrGet(attrs, "class")
    case Some(Some(cls)) => cls
    case _ => ""
  }

  /** The price a `data-price` attribute gives: it is present, non-empty and read by `int()`. */
  function DataPrice(attrs: seq<Attr>): Option<int> {
    match AttrGet(attrs, "data-price")
    case Some(Some(v)) => if v != "" then PyInt(v) else None
    case _ => None
  }

  /**
   * `int()` skips ASCII whitespace around a `data-price`, but not the
   * separator characters U+001C to U+001F that `str.strip()` would remove:
   * such a value is unreadable and sets no price.
   */
  lemma DataPricePadding()
    ensures DataPrice([("data-price", Some(" 5\n"))]) == Some(5)
    ensures DataPrice([("data-price", Some("\U{1C}5"))]) == None
  {
    PyIntAsciiPadding();
    PyIntSeparatorPadding();
    assert AttrGet([("data-price", Some(" 5\n"))], "data-price") == Some(Some(" 5\n"));
    assert AttrGet([("data-price", Some("\U{1C}5"))], "data-price") == Some(Some("\U{1C}5"));
  }

  lemma PyIntAsciiPadding()
    ensures PyInt(" 5\n") == Some(5)
  {
    assert IntStrip(" 5\n") == "5" by {
      assert SkipSpaces(" 5\n", 0, true) == 1;
      assert SkipSpacesBack(" 5\n", 1, 3, true) == 2;
    }
    assert ParseDigits("5") == Some(5) by {
      assert "5"[..0] == [];
    }
  }

  lemma PyIntSeparatorPadding()
    ensures PyInt("\U{1C}5") == None
  {
    assert !IsIntSpace('\U{1C}') && !IsIntSpace('5');
    assert IntStrip("\U{1C}5") == "\U{1C}5";
    assert !IsDigit("\U{1C}5"[0]);
  }

  /** The value of the first run of digits in `text`, or `None` when it has no digit. */
  function PriceInText(text: string): Option<int> {
    match SearchDigits(text)
    case None => None
    case Some((i, j)) => Some(DigitsValue(text[i..j]))
  }

  /** The item `</li>` would emit now: the name is non-empty and a price is set. */
  function PendingItem(s: ParserState): Option<MenuItem> {
    if s.name.Some? && s.name.value != "" && s.price.Some? then
      Some(MenuItem(s.name.value, s.price.value))
    else None
  }

  /** `handle_starttag` is defined on this tag: a `div` must not carry a bare class attribute. */
  predicate StartTagDefined(tag: string, attrs: seq<Attr>) {
    tag == "div" ==> ClassHasValue(attrs)
  }

  /**
   * `handle_starttag`. The tag is pushed; `<li>` drops the pending name and
   * price; a `div` whose class contains "name" starts name capture, else one
   * whose class contains "price" starts price capture, any other tag leaves
   * the capture mode alone; then a usable `data-price` attribute, on any
   * tag, sets the price.
   */
  function OnStartTag(s: ParserState, tag: string, attrs: seq<Attr>): (r: ParserState)
    requires StartTagDefined(tag, attrs)
    ensures r.stack == s.stack + [tag] && r.items == s.items
    ensures r.name == (if tag == "li" then None else s.name)
    ensures DataPrice(attrs).Some? ==> r.price == DataPrice(attrs)
    ensures DataPrice(attrs).None? ==> r.price == (if tag == "li" then None else s.price)
    ensures tag == "div" && Contains(ClassValue(attrs), "name") ==> r.capture == Some(CaptureName)
    ensures tag == "div" && !Contains(ClassValue(attrs), "name") && Contains(ClassValue(attrs), "price")
            ==> r.capture == Some(CapturePrice)
    ensures tag != "div" || !(Contains(ClassValue(attrs), "name") || Contains(ClassValue(attrs), "price"))
            ==> r.capture == s.capture
  {
    var tagged := OnTagName(s.(stack := s.stack + [tag]), tag, attrs);
    match DataPrice(attrs)
    case Some(p) => tagged.(price := Some(p))
    case None => tagged
  }

  /** The part of `handle_starttag` that depends on the tag's name, after the push. */
  function OnTagName(s: ParserState, tag: string, attrs: seq<Attr>): ParserState
    requires StartTagDefined(tag, attrs)
  {
    if tag == "li" then s.(name := None, price := None)
    else if tag == "div" then
      var cls := ClassValue(attrs);
      if Contains(cls, "name") then s.(capture := Some(CaptureName))
      else if Contains(cls, "price") then s.(capture := Some(CapturePrice))
      // the source goes on to test "menu" together with "price" or "name",
      // which cannot succeed once the two tests above have failed
      else s
    else s
  }

  /**
   * `handle_endtag`. The innermost open tag is popped whatever its name.
   * `</li>` emits the pending item when there is one and then drops the
   * name and price; `</div>`, `</span>` and `</p>` end capture.
   */
  function OnEndTag(s: ParserState, tag: string): (r: ParserState)
    ensures r.stack == if s.stack == [] then [] else s.stack[..|s.stack| - 1]
    ensures tag == "li" ==> r.name.None? && r.price.None? && r.capture == s.capture
    ensures tag == "li" && PendingItem(s).Some? ==> r.items == s.items + [PendingItem(s).value]
    ensures tag == "li" && PendingItem(s).None? ==> r.items == s.items
    ensures tag != "li" ==> r.name == s.name && r.price == s.price && r.items == s.items
    ensures tag in {"div", "span", "p"} ==> r.capture.None?
    ensures tag !in {"li", "div", "span", "p"} ==> r.capture == s.capture
  {
    var popped := if s.stack != [] then s.(stack := s.stack[..|s.stack| - 1]) else s;
    if tag == "li" then
      var emitted :=
        match PendingItem(s)
        case Some(item) => popped.items + [item]
        case None => popped.items;
      popped.(items := emitted, name := None, price := None)
    else if tag in {"div", "span", "p"} then
      popped.(capture := None)
    else popped
  }

  /**
   * `handle_data`. Without a capture mode, or when the text is only
   * whitespace, nothing changes. In name mode the stripped text is appended
   * to the name, without a separator; in price mode the first run of
   * digits, if any, replaces the price.
   */
  function OnData(s: ParserState, data: string): (r: ParserState)
    ensures r.stack == s.stack && r.items == s.items && r.capture == s.capture
    ensures s.capture.None? || Strip(data) == [] ==> r == s
    ensures s.capture == Some(CaptureName) && Strip(data) != [] ==>
              r.price == s.price
              && r.name == Some((if s.name.Some? then s.name.value else "") + Strip(data))
    ensures s.capture == Some(CapturePrice) ==> r.name == s.name
    ensures s.capture == Some(CapturePrice) && PriceInText(Strip(data)).Some? ==>
              r.price == PriceInText(Strip(data))
    ensures s.capture == Some(CapturePrice) && PriceInText(Strip(data)).None? ==> r.price == s.price
  {
    var text := Strip(data);
    if s.capture.None? || text == [] then s
    else if s.capture == Some(CaptureName) then
      s.(name := Some((if s.name.Some? then s.name.value else "") + text))
    else
      match PriceInText(text)
      case None => s
      case Some(p) => s.(price := Some(p))
  }

  /**
   * The code point a character reference `&#NNN;` or `&#xHHH;` names:
   * hexadecimal after a lower-case "x", decimal otherwise; `None` for the
   * ValueError of `int()`.
   */
  function CharRefCode(code: string): Option<int> {
    if |code| > 0 && code[0] == 'x' then
      match ParseHex(code[1..])
      case None => None
      case Some(n) => Some(n)
    else PyInt(code)
  }

  /** A code point that is a Unicode scalar value, so a character of a string here. */
  predicate IsScalar(n: int) {
    (0 <= n < 0xD800) || (0xE000 <= n <= 0x10FFFF)
  }

  /**
   * `handle_charref`: the character the reference names is handled as text;
   * an unreadable number, or one `chr()` refuses, is ignored.
   */
  function OnCharRef(s: ParserState, code: string): (r: ParserState)
    ensures r.stack == s.stack && r.items == s.items && r.capture == s.capture
    ensures CharRefCode(code).Some? && IsScalar(CharRefCode(code).value) ==>
              r == OnData(s, [CharRefCode(code).value as char])
    ensures CharRefCode(code).Some? && !IsScalar(CharRefCode(code).value) ==> r == s
    ensures CharRefCode(code).None? ==> r == s
  {
    match CharRefCode(code)
    case Some(n) => if IsScalar(n) then OnData(s, [n as char]) else s
    case None => s
  }

  /** The tokenizer never reports a `div` with a bare class attribute. */
  predicate Defined(e: Event) {
    e.Start? ==> StartTagDefined(e.tag, e.attrs)
  }

  predicate AllDefined(events: seq<Event>) {
    forall k :: 0 <= k < |events| ==> Defined(events[k])
  }

  /** The callback the tokenizer makes for one event. */
  function Step(s: ParserState, e: Event): ParserState
    requires Defined(e)
  {
    match e
    case Start(tag, attrs) => OnStartTag(s, tag, attrs)
    case End(tag) => OnEndTag(s, tag)
    case Data(text) => OnData(s, text)
    case CharRef(code) => OnCharRef(s, code)
  }

  /** The state after the callbacks for `events`, in order. */
  function Run(s: ParserState, events: seq<Event>): ParserState
    requires AllDefined(events)
  {
    if events == [] then s
    else Step(Run(s, events[..|events| - 1]), events[|events| - 1])
  }

  /** The items a fresh parser returns from `get_items` after it is fed `events`. */
  function ParseItems(events: seq<Event>): seq<MenuItem>
    requires AllDefined(events)
  {
    Run(Initial(), events).items
  }

  /**
   * The last step of `fetch_menu`: an empty extraction is an error ("the
   * page format might have changed"), anything else is the menu.
   */
  function ExtractMenu(events: seq<Event>): (r: Result<seq<MenuItem>, string>)
    requires AllDefined(events)
    ensures r.Failure? <==> ParseItems(events) == []
    ensures r.Success? ==> r.value == ParseItems(events)
  {
    var items := ParseItems(events);
    if items == [] then Failure("No menu items found. The page format might have changed.")
    else Success(items)
  }

  /** Items are only ever appended: what was emitted stays, in emission order. */
  lemma {:induction false} RunKeepsEmitted(s: ParserState, events: seq<Event>)
    requires AllDefined(events)
    ensures |s.items| <= |Run(s, events).items|
    ensures Run(s, events).items[..|s.items|] == s.items
    decreases |events|
  {
    if events != [] {
      var before := events[..|events| - 1];
      RunKeepsEmitted(s, before);
      var mid := Run(s, before);
      assert Run(s, events) == Step(mid, events[|events| - 1]);
      assert mid.items[..|s.items|] == s.items;
      var after := Run(s, events).items;
      assert |mid.items| <= |after| && after[..|mid.items|] == mid.items;
      assert after[..|s.items|] == mid.items[..|s.items|];
    }
  }

  /** Only `</li>` emits: callbacks without one never add an item, so a pending item left open is never returned. */
  lemma {:induction false} NoCloseNoItem(s: ParserState, events: seq<Event>)
    requires AllDefined(events)
    requires forall k :: 0 <= k < |events| ==> events[k] != End("li")
    ensures Run(s, events).items == s.items
    decreases |events|
  {
    if events != [] {
      NoCloseNoItem(s, events[..|events| - 1]);
    }
  }

  /** The pending name, once set, is non-empty and stripped; every emitted item's name is too. */
  predicate NamesClean(s: ParserState) {
    && (s.name.Some? ==> s.name.value != [] && IsStripped(s.name.value))
    && forall k :: 0 <= k < |s.items| ==> s.items[k].name != [] && IsStripped(s.items[k].name)
  }

  lemma StepKeepsNamesClean(s: ParserState, e: Event)
    requires Defined(e) && NamesClean(s)
    ensures NamesClean(Step(s, e))
  {
    match e
    case Start(tag, attrs) =>
      var r := OnStartTag(s, tag, attrs);
      assert r.items == s.items;
    case End(tag) =>
      EndKeepsNamesClean(s, tag);
    case Data(text) =>
      DataKeepsNamesClean(s, text);
    case CharRef(code) =>
      if CharRefCode(code).Some? && IsScalar(CharRefCode(code).value) {
        DataKeepsNamesClean(s, [CharRefCode(code).value as char]);
      }
  }

  lemma EndKeepsNamesClean(s: ParserState, tag: string)
    requires NamesClean(s)
    ensures NamesClean(OnEndTag(s, tag))
  {
    var r := OnEndTag(s, tag);
    if tag == "li" && PendingItem(s).Some? {
      assert r.items == s.items + [PendingItem(s).value];
      forall k | 0 <= k < |r.items| ensures r.items[k].name != [] && IsStripped(r.items[k].name) {
        if k < |s.items| {
          assert r.items[k] == s.items[k];
        }
      }
    }
  }

  lemma DataKeepsNamesClean(s: ParserState, text: string)
    requires NamesClean(s)
    ensures NamesClean(OnData(s, text))
  {
    if s.capture == Some(CaptureName) && Strip(text) != [] {
      ConcatStripped(if s.name.Some? then s.name.value else "", Strip(text));
    }
  }

  lemma ConcatStripped(a: string, b: string)
    requires IsStripped(a) && IsStripped(b) && b != []
    ensures IsStripped(a + b) && a + b != []
  {
    if a != [] {
      assert (a + b)[0] == a[0];
    }
    assert (a + b)[|a + b| - 1] == b[|b| - 1];
  }

  /** Every item the extractor emits has a non-empty name with no surrounding whitespace. */
  lemma {:induction false} EmittedNamesClean(s: ParserState, events: seq<Event>)
    requires AllDefined(events) && NamesClean(s)
    ensures NamesClean(Run(s, events))
    decreases |events|
  {
    if events != [] {
      EmittedNamesClean(s, events[..|events| - 1]);
      StepKeepsNamesClean(Run(s, events[..|events| - 1]), events[|events| - 1]);
    }
  }

  /**
   * The callbacks for the list entry the cafeteria pages use:
   * `<li><div class="C1">NAME</div><div class="C2">PRICE</div></li>`.
   */
  function ListEntry(nameClass: string, name: string, priceClass: string, priceText: string): seq<Event> {
    [ Start("li", []),
      Start("div", [("class", Some(nameClass))]), Data(name), End("div"),
      Start("div", [("class", Some(priceClass))]), Data(priceText), End("div"),
      End("li") ]
  }

  /** Every tag of a list entry is one the parser handles. */
  lemma ListEntryDefined(nameClass: string, name: string, priceClass: string, priceText: string)
    ensures AllDefined(ListEntry(nameClass, name, priceClass, priceText))
  {
    assert AttrGet([("class", Some(nameClass))], "class") == Some(Some(nameClass));
    assert AttrGet([("class", Some(priceClass))], "class") == Some(Some(priceClass));
  }

  /** Eight callbacks in a row. */
  lemma RunEight(s: ParserState, es: seq<Event>)
    requires |es| == 8 && AllDefined(es)
    ensures Run(s, es) == Step(Step(Step(Step(Step(Step(Step(Step(s,
              es[0]), es[1]), es[2]), es[3]), es[4]), es[5]), es[6]), es[7])
  {
    assert Run(s, es[..1]) == Step(s, es[0]) by { assert es[..1][..0] == []; }
    assert Run(s, es[..2]) == Step(Run(s, es[..1]), es[1]) by { assert es[..2][..1] == es[..1]; }
    assert Run(s, es[..3]) == Step(Run(s, es[..2]), es[2]) by { assert es[..3][..2] == es[..2]; }
    assert Run(s, es[..4]) == Step(Run(s, es[..3]), es[3]) by { assert es[..4][..3] == es[..3]; }
    assert Run(s, es[..5]) == Step(Run(s, es[..4]), es[4]) by { assert es[..5][..4] == es[..4]; }
    assert Run(s, es[..6]) == Step(Run(s, es[..5]), es[5]) by { assert es[..6][..5] == es[..5]; }
    assert Run(s, es[..7]) == Step(Run(s, es[..6]), es[6]) by { assert es[..7][..6] == es[..6]; }
    assert es[..8] == es;
  }

  /** Feeding `xs` and then `ys` is feeding `xs + ys`. */
  lemma {:induction false} RunAppend(s: ParserState, xs: seq<Event>, ys: seq<Event>)
    requires AllDefined(xs) && AllDefined(ys)
    ensures AllDefined(xs + ys)
    ensures Run(s, xs + ys) == Run(Run(s, xs), ys)
    decreases |ys|
  {
    if ys == [] {
      assert xs + ys == xs;
    } else {
      var last := |ys| - 1;
      RunAppend(s, xs, ys[..last]);
      assert (xs + ys)[..|xs + ys| - 1] == xs + ys[..last];
    }
  }

  /** The opening `li` and the name `div` of an entry start name capture. */
  lemma EntryOpens(nameClass: string)
    requires Contains(nameClass, "name")
    ensures Step(Initial(), Start("li", [])) == ParserState(["li"], None, None, None, [])
    ensures Step(ParserState(["li"], None, None, None, []), Start("div", [("class", Some(nameClass))]))
            == ParserState(["li", "div"], None, None, Some(CaptureName), [])
  {
    var attrs: seq<Attr> := [("class", Some(nameClass))];
    assert AttrGet(attrs, "class") == Some(Some(nameClass));
    assert AttrGet(attrs, "data-price").None?;
  }

  /** The name text is stripped into the pending name, and its `div` closes. */
  lemma EntryName(name: string)
    requires Strip(name) != []
    ensures Step(ParserState(["li", "div"], None, None, Some(CaptureName), []), Data(name))
            == ParserState(["li", "div"], Some(Strip(name)), None, Some(CaptureName), [])
    ensures Step(ParserState(["li", "div"], Some(Strip(name)), None, Some(CaptureName), []), End("div"))
            == ParserState(["li"], Some(Strip(name)), None, None, [])
  {
    assert "" + Strip(name) == Strip(name);
  }

  /** The price `div` starts price capture. */
  lemma EntryPriceOpens(n: string, priceClass: string)
    requires !Contains(priceClass, "name") && Contains(priceClass, "price")
    ensures Step(ParserState(["li"], Some(n), None, None, []), Start("div", [("class", Some(priceClass))]))
            == ParserState(["li", "div"], Some(n), None, Some(CapturePrice), [])
  {
    var attrs: seq<Attr> := [("class", Some(priceClass))];
    assert AttrGet(attrs, "class") == Some(Some(priceClass));
    assert AttrGet(attrs, "data-price").None?;
    assert DataPrice(attrs).None?;
  }

  /** The text of the price `div` sets the pending price. */
  lemma EntryPrice(n: string, priceText: string)
    requires PriceInText(Strip(priceText)).Some?
    ensures Step(ParserState(["li", "div"], Some(n), None, Some(CapturePrice), []), Data(priceText))
            == ParserState(["li", "div"], Some(n), PriceInText(Strip(priceText)), Some(CapturePrice), [])
  {
  }

  /** Closing the price `div` and then the `li` emits the pending item. */
  lemma EntryCloses(n: string, p: int)
    requires n != ""
    ensures Step(ParserState(["li", "div"], Some(n), Some(p), Some(CapturePrice), []), End("div"))
            == ParserState(["li"], Some(n), Some(p), None, [])
    ensures Step(ParserState(["li"], Some(n), Some(p), None, []), End("li")).items == [MenuItem(n, p)]
  {
  }

  /**
   * One list entry in the markup the parser was written for, a name `div`
   * followed by a price `div` inside an `li`, yields exactly one item whose
   * name is the stripped name text and whose price is the first digit run of
   * the price text.
   */
  lemma ListEntryParses(nameClass: string, name: string, priceClass: string, priceText: string)
    requires Contains(nameClass, "name")
    requires !Contains(priceClass, "name") && Contains(priceClass, "price")
    requires Strip(name) != [] && PriceInText(Strip(priceText)).Some?
    ensures AllDefined(ListEntry(nameClass, name, priceClass, priceText))
    ensures ParseItems(ListEntry(nameClass, name, priceClass, priceText))
            == [MenuItem(Strip(name), PriceInText(Strip(priceText)).value)]
  {
    var n := Strip(name);
    var p := PriceInText(Strip(priceText)).value;
    EntryOpens(nameClass);
    EntryName(name);
    EntryPriceOpens(n, priceClass);
    EntryPrice(n, priceText);
    EntryCloses(n, p);
    var es := ListEntry(nameClass, name, priceClass, priceText);
    ListEntryDefined(nameClass, name, priceClass, priceText);
    RunEight(Initial(), es);
    var s1 := ParserState(["li"], None, None, None, []);
    var s2 := ParserState(["li", "div"], None, None, Some(CaptureName), []);
    var s3 := ParserState(["li", "div"], Some(n), None, Some(CaptureName), []);
    var s4 := ParserState(["li"], Some(n), None, None, []);
    var s5 := ParserState(["li", "div"], Some(n), None, Some(CapturePrice), []);
    var s6 := ParserState(["li", "div"], Some(n), Some(p), Some(CapturePrice), []);
    var s7 := ParserState(["li"], Some(n), Some(p), None, []);
    assert Step(Initial(), es[0]) == s1;
    assert Step(s1, es[1]) == s2;
    assert Step(s2, es[2]) == s3;
    assert Step(s3, es[3]) == s4;
    assert Step(s4, es[4]) == s5;
    assert Step(s5, es[5]) == s6;
    assert Step(s6, es[6]) == s7;
    assert Step(s7, es[7]).items == [MenuItem(n, p)];
  }

  /** `<li><div class="menu_name">唐揚げ定食</div><div class="menu_price">500円</div></li>` yields one item, 唐揚げ定食 at 500 yen. */
  lemma SampleEntryParses()
    ensures ParseItems(ListEntry("menu_name", "唐揚げ定食", "menu_price", "500円")) == [MenuItem("唐揚げ定食", 500)]
  {
    SampleClassNames();
    SampleTexts();
    SamplePrice();
    ListEntryParses("menu_name", "唐揚げ定食", "menu_price", "500円");
  }

  /** The sample's class names select name capture and then price capture. */
  lemma SampleClassNames()
    ensures Contains("menu_name", "name")
    ensures !Contains("menu_price", "name") && Contains("menu_price", "price")
  {
    ContainsIffOccurs("menu_name", "name");
    assert OccursAt("menu_name", "name", 5);
    ContainsIffOccurs("menu_price", "price");
    assert OccursAt("menu_price", "price", 5);
    assert 'a' !in "menu_price";
    if Contains("menu_price", "name") {
      ContainsOnlyItsChars("menu_price", "name", 1);
    }
  }

  /** The sample's texts carry no surrounding whitespace. */
  lemma SampleTexts()
    ensures Strip("唐揚げ定食") == "唐揚げ定食"
    ensures Strip("500円") == "500円"
  {
  }

  /** "500円" is priced by its leading digit run. */
  lemma SamplePrice()
    ensures PriceInText("500円") == Some(500)
  {
    assert SearchDigits("500円") == Some((0, 3));
    assert "500円"[0..3] == "500";
    assert "500"[..2] == "50" && "50"[..1] == "5" && "5"[..0] == "";
  }

  /**
   * `MenuHTMLParser`: one pass over a document. Each handler updates the
   * fields in place and leaves them as the matching pure function says.
   */
  class MenuHTMLParser {
    var stack: seq<string>
    var currentName: Option<string>
    var currentPrice: Option<int>
    var captureText: Option<Capture>
    var items: seq<MenuItem>

    /** The fields, read as one value. */
    function State(): ParserState
      reads this
    {
      ParserState(stack, currentName, currentPrice, captureText, items)
    }

    constructor ()
      ensures State() == Initial()
    {
      stack := [];
      currentName := None;
      currentPrice := None;
      items := [];
      captureText := None;
    }

    method HandleStartTag(tag: string, attrs: seq<Attr>)
      requires StartTagDefined(tag, attrs)
      modifies this
      ensures State() == OnStartTag(old(State()), tag, attrs)
    {
      ghost var pushed := old(State()).(stack := old(stack) + [tag]);
      stack := stack + [tag];
      if tag == "li" {
        currentName := None;
        currentPrice := None;
      } else if tag == "div" {
        var cls := ClassValue(attrs);
        if Contains(cls, "name") {
          captureText := Some(CaptureName);
        } else if Contains(cls, "price") {
          captureText := Some(CapturePrice);
        } else if Contains(cls, "menu") && Contains(cls, "price") {
          // unreachable: the source sets price capture here
          assert false;
        } else if Contains(cls, "menu") && Contains(cls, "name") {
          // unreachable: the source sets name capture here
          assert false;
        }
      }
      assert State() == OnTagName(pushed, tag, attrs);
      var dataPrice := AttrGet(attrs, "data-price");
      if dataPrice.Some? && dataPrice.value.Some? && dataPrice.value.value != "" {
        var parsed := PyInt(dataPrice.value.value);
        if parsed.Some? {
          currentPrice := parsed;
        }
      }
    }

    method HandleEndTag(tag: string)
      modifies this
      ensures State() == OnEndTag(old(State()), tag)
    {
      if stack != [] {
        stack := stack[..|stack| - 1];
      }
      if tag == "li" {
        if currentName.Some? && currentName.value != "" && currentPrice.Some? {
          items := items + [MenuItem(currentName.value, currentPrice.value)];
        }
        currentName := None;
        currentPrice := None;
      } else if tag in {"div", "span", "p"} {
        captureText := None;
      }
    }

    method HandleData(data: string)
      modifies this
      ensures State() == OnData(old(State()), data)
    {
      if captureText.None? {
        return;
      }
      var text := Strip(data);
      if text == [] {
        return;
      }
      if captureText == Some(CaptureName) {
        currentName := Some((if currentName.Some? then currentName.value else "") + text);
      } else {
        var found := SearchDigits(text);
        if found.Some? {
          currentPrice := Some(DigitsValue(text[found.value.0..found.value.1]));
        }
      }
    }

    method HandleCharRef(code: string)
      modifies this
      ensures State() == OnCharRef(old(State()), code)
    {
      var n := CharRefCode(code);
      if n.None? || !IsScalar(n.value) {
        return;
      }
      HandleData([n.value as char]);
    }

    /** `get_items`: the emitted items, in emission order. */
    method GetItems() returns (r: seq<MenuItem>)
      ensures r == State().items
    {
      r := items;
    }

    /** The tokenizer's dispatch: one handler call per event, in order. */
    method Feed(events: seq<Event>)
      requires AllDefined(events)
      modifies this
      ensures State() == Run(old(State()), events)
    {
      var i := 0;
      while i < |events|
        invariant 0 <= i <= |events|
        invariant AllDefined(events[..i])
        invariant State() == Run(old(State()), events[..i])
        decreases |events| - i
      {
        assert events[..i + 1][..i] == events[..i];
        match events[i] {
          case Start(tag, attrs) => HandleStartTag(tag, attrs);
          case End(tag) => HandleEndTag(tag);
          case Data(text) => HandleData(text);
          case CharRef(code) => HandleCharRef(code);
        }
        i := i + 1;
      }
      assert events[..i] == events;
    }
  }
}
