/**
 * `format_result` of meal_calculator.py: the human-readable summary of a
 * chosen combination, a header line followed by one line per dish, joined
 * by newlines.
 */
module Report {
  import opened Text
  import opened Menu

  /** The noun of the header: "item" for exactly one dish, "items" otherwise (zero included). */
  function ItemWord(n: nat): (w: string)
    ensures w == "item" <==> n == 1
    ensures w == "item" || w == "items"
  {
    if n != 1 then "items" else "item"
  }

  /** `Best total: {total}円 ({n} item{s})`. */
  function Header(total: int, n: nat): string {
    "Best total: " + IntToString(total) + "円 (" + NatToString(n) + " " + ItemWord(n) + ")"
  }

  /** `- {name}: {price}円`. */
  function ItemLine(item: MenuItem): string {
    "- " + item.name + ": " + IntToString(item.price) + "円"
  }

  /** The header followed by one line per dish, in the order given. */
  function Lines(total: int, items: seq<MenuItem>): seq<string> {
    [Header(total, |items|)] + ItemLines(items)
  }

  /** One line per dish. */
  function ItemLines(items: seq<MenuItem>): (r: seq<string>)
    ensures |r| == |items|
    ensures forall i :: 0 <= i < |items| ==> r[i] == ItemLine(items[i])
  {
    seq(|items|, i requires 0 <= i < |items| => ItemLine(items[i]))
  }

  /** `"\n".join(lines)`. */
  function Join(lines: seq<string>): string {
    if lines == [] then ""
    else if |lines| == 1 then lines[0]
    else lines[0] + "\n" + Join(lines[1..])
  }

  /** The index of the first newline of `s` at or after `i`, or `|s|` when there is none. */
  function NextNewline(s: string, i: nat): (n: nat)
    requires i <= |s|
    ensures i <= n <= |s|
    ensures n == |s| || s[n] == '\n'
    ensures forall k :: i <= k < n ==> s[k] != '\n'
    decreases |s| - i
  {
    if i == |s| || s[i] == '\n' then i else NextNewline(s, i + 1)
  }

  /** `s.split("\n")`: the pieces between newlines, one more than there are newlines. */
  function Split(s: string): (parts: seq<string>)
    ensures parts != []
    decreases |s|
  {
    var n := NextNewline(s, 0);
    if n == |s| then [s] else [s[..n]] + Split(s[n + 1..])
  }

  /** `format_result(total, items)`: it begins with the header and ends without a newline. */
  function FormatResult(total: int, items: seq<MenuItem>): (r: string)
    ensures |r| >= |Header(total, |items|)| && r[..|Header(total, |items|)|] == Header(total, |items|)
    ensures r != [] && r[|r| - 1] != '\n'
  {
    LinesEnd(total, items);
    JoinEnds(Lines(total, items));
    Join(Lines(total, items))
  }

  /** Every line of the summary ends in ")" or "円", never in a newline. */
  lemma LinesEnd(total: int, items: seq<MenuItem>)
    ensures forall i :: 0 <= i < |Lines(total, items)| ==>
              Lines(total, items)[i] != [] && Lines(total, items)[i][|Lines(total, items)[i]| - 1] != '\n'
  {
    var ls := Lines(total, items);
    forall i | 0 <= i < |ls|
      ensures ls[i] != [] && ls[i][|ls[i]| - 1] != '\n'
    {
      LinesAt(total, items, i);
      if i == 0 {
        HeaderEnd(total, |items|);
      } else {
        ItemLineEnd(items[i - 1]);
      }
    }
  }

  /** Line `i` of the summary: the header first, then the dish lines. */
  lemma LinesAt(total: int, items: seq<MenuItem>, i: nat)
    requires i <= |items|
    ensures |Lines(total, items)| == |items| + 1
    ensures Lines(total, items)[i] == if i == 0 then Header(total, |items|) else ItemLine(items[i - 1])
  {
    var tail := ItemLines(items);
    assert Lines(total, items) == [Header(total, |items|)] + tail;
    if i > 0 {
      assert Lines(total, items)[i] == tail[i - 1];
    }
  }

  lemma HeaderEnd(total: int, n: nat)
    ensures var h := Header(total, n); h != [] && h[|h| - 1] == ')'
  {
    var a := "Best total: " + IntToString(total) + "円 (" + NatToString(n) + " " + ItemWord(n);
    assert Header(total, n) == a + ")";
  }

  lemma ItemLineEnd(item: MenuItem)
    ensures var l := ItemLine(item); l != [] && l[|l| - 1] == '円'
  {
    var a := "- " + item.name + ": " + IntToString(item.price);
    assert ItemLine(item) == a + "円";
  }

  predicate NoNewline(s: string) {
    forall i :: 0 <= i < |s| ==> s[i] != '\n'
  }

  /** The first line of a joined text comes first, and the text ends as its last line does. */
  lemma {:induction false} JoinEnds(lines: seq<string>)
    requires lines != [] && forall i :: 0 <= i < |lines| ==> lines[i] != [] && lines[i][|lines[i]| - 1] != '\n'
    ensures var r := Join(lines);
      |r| >= |lines[0]| && r[..|lines[0]|] == lines[0] && r != [] && r[|r| - 1] == lines[|lines| - 1][|lines[|lines| - 1]| - 1]
    decreases |lines|
  {
    if |lines| > 1 {
      var rest := lines[1..];
      JoinEnds(rest);
      assert rest[|rest| - 1] == lines[|lines| - 1];
      var r := lines[0] + "\n" + Join(rest);
      assert r[..|lines[0]|] == lines[0];
    }
  }

  /** Splitting joined lines gives the lines back when none of them holds a newline. */
  lemma {:induction false} SplitJoin(lines: seq<string>)
    requires lines != [] && forall i :: 0 <= i < |lines| ==> NoNewline(lines[i])
    ensures Split(Join(lines)) == lines
    decreases |lines|
  {
    var first := lines[0];
    if |lines| == 1 {
      assert NextNewline(first, 0) == |first| by {
        assert NoNewline(first);
      }
    } else {
      var rest := Join(lines[1..]);
      var s := first + "\n" + rest;
      var n := NextNewline(s, 0);
      assert s[|first|] == '\n';
      assert n == |first| by {
        assert NoNewline(first);
        assert forall k :: 0 <= k < |first| ==> s[k] == first[k];
      }
      assert s[..n] == first;
      assert s[n + 1..] == rest;
      SplitJoin(lines[1..]);
      assert [first] + lines[1..] == lines;
    }
  }

  lemma {:induction false} NatToStringNoNewline(n: nat)
    ensures NoNewline(NatToString(n))
  {
    var s := NatToString(n);
    forall i | 0 <= i < |s|
      ensures s[i] != '\n'
    {
      assert IsDigit(s[i]);
    }
  }

  lemma IntToStringNoNewline(i: int)
    ensures NoNewline(IntToString(i))
  {
    if i < 0 {
      NatToStringNoNewline(-i);
    } else {
      NatToStringNoNewline(i);
    }
  }

  /**
   * The summary has one line per dish after the header, and reading it
   * back line by line gives exactly the header and the dish lines, in
   * order, provided no dish name holds a newline.
   */
  lemma FormatResultLines(total: int, items: seq<MenuItem>)
    requires forall i :: 0 <= i < |items| ==> NoNewline(items[i].name)
    ensures var ls := Split(FormatResult(total, items));
      |ls| == |items| + 1 && ls[0] == Header(total, |items|)
      && forall i :: 0 <= i < |items| ==> ls[i + 1] == ItemLine(items[i])
  {
    var ls := Lines(total, items);
    forall k | 0 <= k < |ls|
      ensures NoNewline(ls[k])
    {
      if k == 0 {
        HeaderNoNewline(total, |items|);
      } else {
        ItemLineNoNewline(items[k - 1]);
      }
    }
    SplitJoin(ls);
  }

  lemma HeaderNoNewline(total: int, n: nat)
    ensures NoNewline(Header(total, n))
  {
    IntToStringNoNewline(total);
    NatToStringNoNewline(n);
  }

  lemma ItemLineNoNewline(item: MenuItem)
    requires NoNewline(item.name)
    ensures NoNewline(ItemLine(item))
  {
    IntToStringNoNewline(item.price);
  }
}
