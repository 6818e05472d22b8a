/**
 * The plain-text body of the to-do export mail: a header line, then one
 * block per row. `AppendLine` ends each piece with the platform newline,
 * which is a parameter here; the `\n`s inside each block are literal.
 */
module EmailBody {
  import opened Wrappers
  import opened Models

  /** The header line's text ("Your to-do list:"). */
  const Header: string := "Ваш список дел:"

  /** String interpolation writes a null string as nothing. */
  function Interpolated(s: Option<string>): string {
    match s
    case None => ""
    case Some(v) => v
  }

  /** The block appended for one row: `- {Title}:\n{Description}\n` and a newline. */
  function ItemLine(item: ToDoList, newline: string): string {
    "- " + Interpolated(item.title) + ":\n" + Interpolated(item.description) + "\n" + newline
  }

  /** The blocks of all rows, in list order. */
  function ItemLines(items: seq<ToDoList>, newline: string): string
  {
    if items == [] then ""
    else ItemLines(items[..|items| - 1], newline) + ItemLine(items[|items| - 1], newline)
  }

  /** The whole body. */
  function RenderEmailBody(items: seq<ToDoList>, newline: string): string {
    Header + newline + ItemLines(items, newline)
  }

  /** The `StringBuilder` loop that builds the body. */
  method BuildEmailBody(items: seq<ToDoList>, newline: string) returns (body: string)
    ensures body == RenderEmailBody(items, newline)
  {
    body := Header + newline;
    assert body == RenderEmailBody(items[..0], newline);
    for i := 0 to |items|
      invariant body == RenderEmailBody(items[..i], newline)
    {
      RenderEmailBodyExtend(items, newline, i);
      body := body + ItemLine(items[i], newline);
    }
    assert items[..|items|] == items;
  }

  /** One more row adds its block at the end of the body. */
  lemma RenderEmailBodyExtend(items: seq<ToDoList>, newline: string, i: nat)
    requires i < |items|
    ensures RenderEmailBody(items[..i + 1], newline)
         == RenderEmailBody(items[..i], newline) + ItemLine(items[i], newline)
  {
    ItemLinesExtend(items, newline, i);
  }

  /** The blocks of two lists one after the other are the blocks of the joined list. */
  lemma {:induction false} ItemLinesAppend(a: seq<ToDoList>, b: seq<ToDoList>, newline: string)
    ensures ItemLines(a + b, newline) == ItemLines(a, newline) + ItemLines(b, newline)
    decreases |b|
  {
    if b != [] {
      var b' := b[..|b| - 1];
      assert (a + b)[..|a + b| - 1] == a + b';
      assert (a + b)[|a + b| - 1] == b[|b| - 1];
      ItemLinesAppend(a, b', newline);
    } else {
      assert a + b == a;
    }
  }

  /** Where row i's block starts in the body. */
  function BlockOffset(items: seq<ToDoList>, newline: string, i: nat): nat
    requires i <= |items|
  {
    |Header| + |newline| + |ItemLines(items[..i], newline)|
  }

  /** The body starts with the header line. */
  lemma EmailBodyStartsWithHeader(items: seq<ToDoList>, newline: string)
    ensures var body := RenderEmailBody(items, newline);
      |Header| + |newline| <= |body| && body[..|Header| + |newline|] == Header + newline
  {
  }

  /** The part of `p + (q + b + c)` that follows `p` and `q`. */
  lemma SliceAfterPrefixes(p: string, q: string, b: string, c: string)
    ensures |p| + |q| + |b| <= |p + (q + b + c)|
    ensures (p + (q + b + c))[|p| + |q|..|p| + |q| + |b|] == b
  {
    var s := p + (q + b + c);
    forall k | 0 <= k < |b| ensures s[|p| + |q| + k] == b[k] {
      assert s[|p| + |q| + k] == (q + b + c)[|q| + k];
    }
  }

  /** One more row adds its block at the end. */
  lemma ItemLinesExtend(items: seq<ToDoList>, newline: string, i: nat)
    requires i < |items|
    ensures ItemLines(items[..i + 1], newline) == ItemLines(items[..i], newline) + ItemLine(items[i], newline)
  {
    assert items[..i + 1][..i] == items[..i];
  }

  /** The blocks split around row i. */
  lemma ItemLinesSplitAt(items: seq<ToDoList>, newline: string, i: nat)
    requires i < |items|
    ensures ItemLines(items, newline)
         == ItemLines(items[..i], newline) + ItemLine(items[i], newline) + ItemLines(items[i + 1..], newline)
  {
    assert items[..i + 1] + items[i + 1..] == items;
    ItemLinesAppend(items[..i + 1], items[i + 1..], newline);
    ItemLinesExtend(items, newline, i);
  }

  /** Row i's block stands, whole, at its offset in the body. */
  lemma EmailBodyShowsEachItem(items: seq<ToDoList>, newline: string, i: nat)
    requires i < |items|
    ensures var body := RenderEmailBody(items, newline);
      var off := BlockOffset(items, newline, i);
      var line := ItemLine(items[i], newline);
      && off + |line| <= |body|
      && body[off..off + |line|] == line
  {
    var front, line, back := ItemLines(items[..i], newline), ItemLine(items[i], newline), ItemLines(items[i + 1..], newline);
    ItemLinesSplitAt(items, newline, i);
    assert RenderEmailBody(items, newline) == (Header + newline) + (front + line + back);
    SliceAfterPrefixes(Header + newline, front, line, back);
  }

  /** Blocks appear in list order and do not overlap. */
  lemma EmailBodyKeepsListOrder(items: seq<ToDoList>, newline: string, i: nat, j: nat)
    requires i < j <= |items|
    ensures BlockOffset(items, newline, i) + |ItemLine(items[i], newline)| <= BlockOffset(items, newline, j)
  {
    assert items[..j] == items[..i + 1] + items[i + 1..j];
    ItemLinesAppend(items[..i + 1], items[i + 1..j], newline);
    ItemLinesExtend(items, newline, i);
  }
}
