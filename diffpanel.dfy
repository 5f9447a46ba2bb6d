/**
  The field selection of the diff panel (frontend/src/components/DiffPanel.tsx):
  one item per SOAP field, highlighted with highlightChange, and the items that
  changed. Rendering is reduced to the list of blocks shown, or the no-edits
  message.
*/
module DiffPanel {
  import opened Diff

  /** The four fields, in panel order. */
  datatype Field = Subjective | Objective | Assessment | Plan

  const Fields: seq<Field> := [Subjective, Objective, Assessment, Plan]

  function Key(f: Field): string
  {
    match f
    case Subjective => "subjective"
    case Objective => "objective"
    case Assessment => "assessment"
    case Plan => "plan"
  }

  function Label(f: Field): string
  {
    match f
    case Subjective => "Subjective"
    case Objective => "Objective"
    case Assessment => "Assessment"
    case Plan => "Plan"
  }

  /** A note as the panel receives it: an object whose fields may be missing. */
  type NoteObject = map<string, string>

  /** `(note as any)[k] || ""`: a missing or empty value is compared as "". */
  function ValueOf(n: NoteObject, f: Field): string
  {
    if Key(f) in n then n[Key(f)] else ""
  }

  /** One entry of `items`. */
  datatype DiffItem = DiffItem(key: string, heading: string, beforeHtml: string, afterHtml: string, changed: bool)

  function Item(before: NoteObject, after: NoteObject, f: Field): DiffItem
  {
    var d := Highlight(ValueOf(before, f), ValueOf(after, f));
    DiffItem(Key(f), Label(f), d.beforeHtml, d.afterHtml, d.changed)
  }

  /** `fields.map(...)`. */
  function Items(before: NoteObject, after: NoteObject): (r: seq<DiffItem>)
    ensures |r| == |Fields|
    ensures forall k :: 0 <= k < |r| ==> r[k] == Item(before, after, Fields[k])
  {
    seq(|Fields|, k requires 0 <= k < |Fields| => Item(before, after, Fields[k]))
  }

  /** `items.filter(i => i.changed)`. */
  function Changed(items: seq<DiffItem>): (r: seq<DiffItem>)
    ensures |r| <= |items|
  {
    if items == [] then []
    else (if items[0].changed then [items[0]] else []) + Changed(items[1..])
  }

  /** The filter keeps exactly the changed items. */
  lemma {:induction false} ChangedMembers(items: seq<DiffItem>, x: DiffItem)
    ensures x in Changed(items) <==> x in items && x.changed
  {
    if items != [] {
      ChangedMembers(items[1..], x);
      assert items == [items[0]] + items[1..];
    }
  }

  /** Filtering keeps the original order: it distributes over concatenation. */
  lemma {:induction false} ChangedConcat(xs: seq<DiffItem>, ys: seq<DiffItem>)
    ensures Changed(xs + ys) == Changed(xs) + Changed(ys)
  {
    if xs == [] {
      assert xs + ys == ys;
    } else {
      assert (xs + ys)[0] == xs[0];
      assert (xs + ys)[1..] == xs[1..] + ys;
      ChangedConcat(xs[1..], ys);
    }
  }

  /** An item that changed, and only then, is kept. */
  function Keep(x: DiffItem): seq<DiffItem>
  {
    if x.changed then [x] else []
  }

  lemma ChangedSingle(x: DiffItem)
    ensures Changed([x]) == Keep(x)
  {
    assert [x][1..] == [];
  }

  lemma ChangedOfFour(xs: seq<DiffItem>)
    requires |xs| == 4
    ensures Changed(xs) == Keep(xs[0]) + Keep(xs[1]) + Keep(xs[2]) + Keep(xs[3])
  {
    var a, b, c, d := [xs[0]], [xs[1]], [xs[2]], [xs[3]];
    assert xs == a + b + c + d;
    ChangedConcat(a + b + c, d);
    ChangedConcat(a + b, c);
    ChangedConcat(a, b);
    ChangedSingle(xs[0]);
    ChangedSingle(xs[1]);
    ChangedSingle(xs[2]);
    ChangedSingle(xs[3]);
  }

  /** The changed items are the changed fields' items, in panel order. */
  lemma ChangedItemsInOrder(before: NoteObject, after: NoteObject)
    ensures var items := Items(before, after);
      Changed(items) == Keep(items[0]) + Keep(items[1]) + Keep(items[2]) + Keep(items[3])
  {
    ChangedOfFour(Items(before, after));
  }

  /** The keys of the items are distinct, so an item's key names its field. */
  lemma KeyInjective(f: Field, g: Field)
    ensures Key(f) == Key(g) <==> f == g
  {
  }

  /** A field appears among the changed items exactly when its before and after
      values differ. */
  lemma FieldShownIffChanged(before: NoteObject, after: NoteObject, f: Field)
    ensures (exists x :: x in Changed(Items(before, after)) && x.key == Key(f)) <==>
      ValueOf(before, f) != ValueOf(after, f)
  {
    var items := Items(before, after);
    var k := match f case Subjective => 0 case Objective => 1 case Assessment => 2 case Plan => 3;
    assert Fields[k] == f;
    if ValueOf(before, f) != ValueOf(after, f) {
      ChangedMembers(items, items[k]);
    } else {
      forall x | x in Changed(items) ensures x.key != Key(f) {
        ChangedMembers(items, x);
        var i :| 0 <= i < |items| && items[i] == x;
        KeyInjective(Fields[i], f);
      }
    }
  }

  /** One rendered block: the label (`heading`) and the two HTML strings. */
  datatype Block = Block(heading: string, beforeHtml: string, afterHtml: string)

  /** What the panel shows. */
  datatype View = NoEdits | Blocks(blocks: seq<Block>)

  function ToBlocks(items: seq<DiffItem>): (r: seq<Block>)
    ensures |r| == |items|
    ensures forall k :: 0 <= k < |r| ==>
      r[k] == Block(items[k].heading, items[k].beforeHtml, items[k].afterHtml)
  {
    if items == [] then [] else [Block(items[0].heading, items[0].beforeHtml, items[0].afterHtml)] + ToBlocks(items[1..])
  }

  /** DiffPanel: the no-edits message when nothing changed, else one block per
      changed item. */
  function Render(before: NoteObject, after: NoteObject): View
  {
    var changed := Changed(Items(before, after));
    if |changed| == 0 then NoEdits else Blocks(ToBlocks(changed))
  }

  /** The no-edits message is shown exactly when all four values are equal. */
  lemma NoEditsIffUnchanged(before: NoteObject, after: NoteObject)
    ensures Render(before, after) == NoEdits <==>
      forall f :: ValueOf(before, f) == ValueOf(after, f)
  {
    var items := Items(before, after);
    if Render(before, after) == NoEdits {
      forall f ensures ValueOf(before, f) == ValueOf(after, f) {
        FieldShownIffChanged(before, after, f);
      }
    } else {
      var x := Changed(items)[0];
      assert x in Changed(items);
      ChangedMembers(items, x);
      var i :| 0 <= i < |items| && items[i] == x;
      FieldShownIffChanged(before, after, Fields[i]);
    }
  }

  /** Each block shows its field's label and the highlighted before and after
      values. */
  lemma BlocksShowHighlight(before: NoteObject, after: NoteObject, b: Block)
    requires Render(before, after).Blocks? && b in Render(before, after).blocks
    ensures exists f :: ValueOf(before, f) != ValueOf(after, f) &&
                        b == Block(Label(f), Highlight(ValueOf(before, f), ValueOf(after, f)).beforeHtml,
                                   Highlight(ValueOf(before, f), ValueOf(after, f)).afterHtml)
  {
    var items := Items(before, after);
    var changed := Changed(items);
    var k :| 0 <= k < |changed| && ToBlocks(changed)[k] == b;
    assert changed[k] in changed;
    ChangedMembers(items, changed[k]);
    var i :| 0 <= i < |items| && items[i] == changed[k];
    var f := Fields[i];
    assert b == Block(Label(f), Highlight(ValueOf(before, f), ValueOf(after, f)).beforeHtml,
                      Highlight(ValueOf(before, f), ValueOf(after, f)).afterHtml);
  }
}
