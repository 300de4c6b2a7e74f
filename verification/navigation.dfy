/** A suite's parsed navigation document: categories, each holding widget
    groups, each holding example descriptors (build/build.js, the nested
    loops of `deployExamples`). The category order is the key order in which
    `for...in` visits the parsed object; the model takes it as given. */
module Navigation {

  datatype Example = Example(url: string, text: string)

  datatype WidgetGroup = WidgetGroup(items: seq<Example>)

  datatype Category = Category(name: string, widgets: seq<WidgetGroup>)

  type Nav = seq<Category>

  /** The examples of a run of widget groups, group by group. */
  function GroupItems(ws: seq<WidgetGroup>): seq<Example> {
    if |ws| == 0 then [] else ws[0].items + GroupItems(ws[1..])
  }

  /** The visiting order of the loops: category, then widget group, then
      item. */
  function Flatten(nav: Nav): seq<Example> {
    if |nav| == 0 then [] else GroupItems(nav[0].widgets) + Flatten(nav[1..])
  }

  /** How many items a run of widget groups holds. */
  function GroupCount(ws: seq<WidgetGroup>): nat {
    if |ws| == 0 then 0 else |ws[0].items| + GroupCount(ws[1..])
  }

  /** How many items a navigation document holds across all categories and
      widget groups. */
  function ItemCount(nav: Nav): nat {
    if |nav| == 0 then 0 else GroupCount(nav[0].widgets) + ItemCount(nav[1..])
  }

  /** Where item `i` of group `w` of category `c` is visited. */
  function Position(nav: Nav, c: nat, w: nat, i: nat): nat
    requires c < |nav| && w < |nav[c].widgets|
  {
    ItemCount(nav[..c]) + GroupCount(nav[c].widgets[..w]) + i
  }

  ghost predicate IsItem(nav: Nav, c: int, w: int, i: int) {
    0 <= c < |nav| && 0 <= w < |nav[c].widgets| && 0 <= i < |nav[c].widgets[w].items|
  }

  // ---------------------------------------------------------------------------

  lemma {:induction false} GroupItemsCount(ws: seq<WidgetGroup>)
    ensures |GroupItems(ws)| == GroupCount(ws)
    decreases |ws|
  {
    if |ws| > 0 {
      GroupItemsCount(ws[1..]);
    }
  }

  /** The loops visit exactly as many examples as the document holds. */
  lemma {:induction false} FlattenCount(nav: Nav)
    ensures |Flatten(nav)| == ItemCount(nav)
    decreases |nav|
  {
    if |nav| > 0 {
      GroupItemsCount(nav[0].widgets);
      FlattenCount(nav[1..]);
    }
  }

  lemma {:induction false} GroupItemsAt(ws: seq<WidgetGroup>, w: nat, i: nat)
    requires w < |ws| && i < |ws[w].items|
    ensures GroupCount(ws[..w]) + i < |GroupItems(ws)|
    ensures GroupItems(ws)[GroupCount(ws[..w]) + i] == ws[w].items[i]
    decreases w
  {
    GroupItemsCount(ws);
    if w == 0 {
      assert ws[..0] == [];
    } else {
      GroupItemsAt(ws[1..], w - 1, i);
      assert ws[..w][1..] == ws[1..][..w - 1];
    }
  }

  /** Item `i` of group `w` of category `c` is visited at `Position`. */
  lemma {:induction false} FlattenAt(nav: Nav, c: nat, w: nat, i: nat)
    requires IsItem(nav, c, w, i)
    ensures Position(nav, c, w, i) < |Flatten(nav)|
    ensures Flatten(nav)[Position(nav, c, w, i)] == nav[c].widgets[w].items[i]
    decreases c
  {
    FlattenCount(nav);
    if c == 0 {
      assert nav[..0] == [];
      GroupItemsAt(nav[0].widgets, w, i);
    } else {
      FlattenAt(nav[1..], c - 1, w, i);
      assert nav[..c][1..] == nav[1..][..c - 1];
      GroupItemsCount(nav[0].widgets);
    }
  }

  lemma {:induction false} GroupItemsIndex(ws: seq<WidgetGroup>, k: nat) returns (w: nat, i: nat)
    requires k < |GroupItems(ws)|
    ensures w < |ws| && i < |ws[w].items|
    ensures k == GroupCount(ws[..w]) + i && GroupItems(ws)[k] == ws[w].items[i]
    decreases |ws|
  {
    if k < |ws[0].items| {
      w, i := 0, k;
      assert ws[..0] == [];
    } else {
      var w', i' := GroupItemsIndex(ws[1..], k - |ws[0].items|);
      w, i := w' + 1, i';
      assert ws[..w][1..] == ws[1..][..w'];
    }
  }

  /** Every visited example is an item of the document, visited at its
      `Position`: the loops visit nothing else. */
  lemma {:induction false} FlattenIndex(nav: Nav, k: nat) returns (c: nat, w: nat, i: nat)
    requires k < |Flatten(nav)|
    ensures IsItem(nav, c, w, i)
    ensures k == Position(nav, c, w, i) && Flatten(nav)[k] == nav[c].widgets[w].items[i]
    decreases |nav|
  {
    GroupItemsCount(nav[0].widgets);
    if k < |GroupItems(nav[0].widgets)| {
      c := 0;
      w, i := GroupItemsIndex(nav[0].widgets, k);
      assert nav[..0] == [];
    } else {
      var c', w', i' := FlattenIndex(nav[1..], k - |GroupItems(nav[0].widgets)|);
      c, w, i := c' + 1, w', i';
      assert nav[..c][1..] == nav[1..][..c'];
    }
  }
}
