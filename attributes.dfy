/**
  The attribute table of `visitTag` (compiler.go:425-505): every attribute of a tag,
  already translated into its template text, is added to a map from name to value and
  guard, and the map is then written out in name order.
 */
module Attributes {
  import Strings

  /** `attrib{value, condition}` once its value and guard have been translated. */
  datatype Attrib = Attrib(value: string, condition: string)

  /** A value wrapped in its guard, if it has one. */
  function Guarded(a: Attrib): string {
    if |a.condition| > 0 then "{{if " + a.condition + "}}" + a.value + "{{end}}" else a.value
  }

  /**
    One iteration of the loop of compiler.go:434-477: a further `class` is glued to the
    previous value with a space, each part wrapped in its own guard; any other name (and the
    first `class`) replaces what the table held.
   */
  function AddItem(table: map<string, Attrib>, name: string, a: Attrib): map<string, Attrib> {
    if name == "class" && "class" in table then
      table["class" := Attrib(Guarded(table["class"]) + Guarded(Attrib(" " + a.value, a.condition)), "")]
    else
      table[name := a]
  }

  /** The table after all of the tag's attributes, in declaration order. */
  function Table(items: seq<(string, Attrib)>): map<string, Attrib>
    decreases |items|
  {
    if items == [] then map[]
    else AddItem(Table(items[..|items| - 1]), items[|items| - 1].0, items[|items| - 1].1)
  }

  /** One more item adds its name to the table's names. */
  lemma AddItemKeys(table: map<string, Attrib>, name: string, a: Attrib)
    ensures AddItem(table, name, a).Keys == table.Keys + {name}
  {
  }

  /** The declared names of `items`, put as a set. */
  ghost function DeclaredNames(items: seq<(string, Attrib)>): set<string> {
    set k | 0 <= k < |items| :: items[k].0
  }

  /** The declared names are those of all but the last item, and the last one's. */
  lemma DeclaredNamesSnoc(items: seq<(string, Attrib)>)
    requires items != []
    ensures DeclaredNames(items) == DeclaredNames(items[..|items| - 1]) + {items[|items| - 1].0}
  {
    var init := items[..|items| - 1];
    forall x | x in DeclaredNames(items) ensures x in DeclaredNames(init) + {items[|items| - 1].0} {
      var k :| 0 <= k < |items| && items[k].0 == x;
      if k < |init| {
        assert init[k].0 == x;
      }
    }
    forall x | x in DeclaredNames(init) ensures x in DeclaredNames(items) {
      var k :| 0 <= k < |init| && init[k].0 == x;
      assert items[k].0 == x;
    }
  }

  /** The table has exactly one entry per declared name. */
  lemma {:induction false} TableKeys(items: seq<(string, Attrib)>)
    ensures Table(items).Keys == set k | 0 <= k < |items| :: items[k].0
    decreases |items|
  {
    if items != [] {
      var init := items[..|items| - 1];
      TableKeys(init);
      AddItemKeys(Table(init), items[|items| - 1].0, items[|items| - 1].1);
      DeclaredNamesSnoc(items);
    }
  }

  /**
    A name other than `class` takes the value and guard of its last declaration
    (`p#test1#test2` gives `id="test2"`).
   */
  lemma {:induction false} LastWins(items: seq<(string, Attrib)>, k: nat)
    requires k < |items| && items[k].0 != "class"
    requires forall j :: k < j < |items| ==> items[j].0 != items[k].0
    ensures items[k].0 in Table(items) && Table(items)[items[k].0] == items[k].1
    decreases |items|
  {
    if k < |items| - 1 {
      var init := items[..|items| - 1];
      assert init[k] == items[k];
      LastWins(init, k);
    }
  }

  /** The `class` contributions, in declaration order. */
  function ClassParts(items: seq<(string, Attrib)>): (r: seq<Attrib>)
    decreases |items|
  {
    if items == [] then []
    else if items[|items| - 1].0 == "class" then ClassParts(items[..|items| - 1]) + [items[|items| - 1].1]
    else ClassParts(items[..|items| - 1])
  }

  /**
    The closed form of the class value: a single contribution keeps its own guard; from
    two on, the first is written (guarded) and every later one follows as a space and its
    value, each in its own guard, and the entry has no guard left.
   */
  function ClassValue(cs: seq<Attrib>): Attrib
    requires |cs| > 0
  {
    if |cs| == 1 then cs[0]
    else Attrib(Guarded(cs[0]) + Strings.Concat(Pieces(cs[1..])), "")
  }

  /** A later class contribution as it is glued on: a space and its value, in its own guard. */
  function Piece(a: Attrib): string {
    Guarded(Attrib(" " + a.value, a.condition))
  }

  /** `Piece` of every contribution, in order. */
  function Pieces(cs: seq<Attrib>): (r: seq<string>)
    ensures |r| == |cs| && forall i :: 0 <= i < |cs| ==> r[i] == Piece(cs[i])
    decreases |cs|
  {
    if cs == [] then [] else Pieces(cs[..|cs| - 1]) + [Piece(cs[|cs| - 1])]
  }

  lemma {:induction false} ClassPartsEmpty(items: seq<(string, Attrib)>)
    requires ClassParts(items) == []
    ensures "class" !in Table(items)
    decreases |items|
  {
    if items != [] {
      ClassPartsEmpty(items[..|items| - 1]);
    }
  }

  /** One more class contribution is glued, in its own guard, to the guarded value so far. */
  lemma ClassValueSnoc(cs: seq<Attrib>, x: Attrib)
    requires |cs| > 0
    ensures ClassValue(cs + [x]) == Attrib(Guarded(ClassValue(cs)) + Piece(x), "")
  {
    var cs' := cs + [x];
    var ps := Pieces(cs[1..]);
    var g := Guarded(cs[0]);
    assert Strings.Concat(Pieces(cs'[1..])) == Strings.Concat(ps) + Piece(x) by {
      assert cs'[1..] == cs[1..] + [x];
      assert (cs[1..] + [x])[..|cs[1..]|] == cs[1..];
      assert Pieces(cs'[1..]) == ps + [Piece(x)];
      Strings.ConcatAppend(ps, [Piece(x)]);
      Strings.ConcatSingle(Piece(x));
    }
    assert ClassValue(cs') == Attrib(g + (Strings.Concat(ps) + Piece(x)), "") by {
      assert cs'[0] == cs[0];
    }
    assert Guarded(ClassValue(cs)) == g + Strings.Concat(ps) by {
      if |cs| == 1 {
        assert ps == [];
      }
    }
  }

  /** Repeated `class` declarations concatenate in declaration order (compiler.go:459-473). */
  lemma {:induction false} ClassConcatenation(items: seq<(string, Attrib)>)
    requires |ClassParts(items)| > 0
    ensures "class" in Table(items) && Table(items)["class"] == ClassValue(ClassParts(items))
    decreases |items|
  {
    var init := items[..|items| - 1];
    var last := items[|items| - 1];
    if last.0 != "class" {
      ClassConcatenation(init);
    } else if ClassParts(init) == [] {
      ClassPartsEmpty(init);
      assert ClassParts(items) == [last.1];
    } else {
      ClassConcatenation(init);
      ClassValueSnoc(ClassParts(init), last.1);
    }
  }

  /** Without guards, the class contributions are joined by single spaces (`test1 test-2 test4`). */
  lemma ClassJoin(cs: seq<Attrib>)
    requires |cs| > 0 && forall i :: 0 <= i < |cs| ==> cs[i].condition == ""
    ensures ClassValue(cs).value == Strings.Join(seq(|cs|, i requires 0 <= i < |cs| => cs[i].value), " ")
  {
    var vs := seq(|cs|, i requires 0 <= i < |cs| => cs[i].value);
    if |cs| > 1 {
      assert Pieces(cs[1..]) == Spaced(vs);
      JoinAsConcat(vs);
    }
  }

  /** Every value after the first, each behind one space. */
  function Spaced(vs: seq<string>): (r: seq<string>)
    ensures |vs| > 0 ==> |r| == |vs| - 1 && forall i :: 0 <= i < |r| ==> r[i] == " " + vs[i + 1]
    decreases |vs|
  {
    if |vs| <= 1 then [] else [" " + vs[1]] + Spaced(vs[1..])
  }

  lemma {:induction false} JoinAsConcat(vs: seq<string>)
    requires |vs| > 0
    ensures Strings.Join(vs, " ") == vs[0] + Strings.Concat(Spaced(vs))
    decreases |vs|
  {
    if |vs| > 1 {
      var rest := vs[1..];
      JoinAsConcat(rest);
      var x := " " + vs[1];
      var tail := Strings.Concat(Spaced(rest));
      Strings.ConcatAppend([x], Spaced(rest));
      Strings.ConcatSingle(x);
      assert Strings.Concat(Spaced(vs)) == x + tail;
      assert Strings.Join(vs, " ") == vs[0] + " " + (vs[1] + tail);
      Strings.AppendAssoc(vs[0], " ", vs[1] + tail);
      Strings.AppendAssoc(" ", vs[1], tail);
    }
  }

  /**
    One attribute as compiler.go:492-504 writes it: a bare name for an empty value,
    `name="value"` otherwise, the whole of it inside the guard if there is one.
   */
  function EmitAttr(name: string, a: Attrib): string {
    var body := if a.value == "" then " " + name else " " + name + "=\"" + a.value + "\"";
    if |a.condition| > 0 then "{{if " + a.condition + "}}" + body + "{{end}}" else body
  }

  /** The attributes written one after the other in increasing name order (compiler.go:482-505). */
  ghost function EmitAttrs(table: map<string, Attrib>): string {
    EmitNames(Strings.SortedNames(table.Keys), table)
  }

  /** The attributes of `names`, in that order. */
  function EmitNames(names: seq<string>, table: map<string, Attrib>): string
    requires forall k :: 0 <= k < |names| ==> names[k] in table
  {
    Strings.Concat(seq(|names|, i requires 0 <= i < |names| => EmitAttr(names[i], table[names[i]])))
  }

  /** One more name written after those before it. */
  lemma EmitNamesSnoc(names: seq<string>, table: map<string, Attrib>, j: nat)
    requires j < |names| && forall k :: 0 <= k < |names| ==> names[k] in table
    ensures EmitNames(names[..j + 1], table) == EmitNames(names[..j], table) + EmitAttr(names[j], table[names[j]])
  {
    var p, q := names[..j], names[..j + 1];
    var wp := seq(|p|, i requires 0 <= i < |p| => EmitAttr(p[i], table[p[i]]));
    var wq := seq(|q|, i requires 0 <= i < |q| => EmitAttr(q[i], table[q[i]]));
    assert wq[..j] == wp;
    Strings.ConcatTake(wq, j);
  }

  /** The sorted names of a table are its names, and writing them is `EmitAttrs`. */
  lemma EmitSorted(table: map<string, Attrib>, names: seq<string>)
    requires names == Strings.SortedNames(table.Keys)
    ensures forall k :: 0 <= k < |names| ==> names[k] in table
    ensures EmitAttrs(table) == EmitNames(names, table)
  {
  }

  /** `class` comes before `id`. */
  lemma SortedClassId()
    ensures Strings.SortedNames({"class", "id"}) == ["class", "id"]
  {
    assert Strings.LexLess("class", "id");
    var names := Strings.SortedNames({"class", "id"});
    assert Strings.StrictlySorted(["class", "id"]);
    Strings.StrictlySortedUnique(names, ["class", "id"]);
  }

  /** An attribute with a value and no guard is written ` name="value"`. */
  lemma EmitUnguarded(name: string, v: string)
    requires v != ""
    ensures EmitAttr(name, Attrib(v, "")) == " " + name + "=\"" + v + "\""
  {
  }

  /** A table holding just `class` and `id` writes `class` first. */
  lemma EmitClassThenId(t: map<string, Attrib>)
    requires t.Keys == {"class", "id"}
    ensures EmitAttrs(t) == EmitAttr("class", t["class"]) + EmitAttr("id", t["id"])
  {
    SortedClassId();
    EmitPair(t, "class", "id");
  }

  /** A table whose names sort as `a`, `b` writes `a` and then `b`. */
  lemma EmitPair(t: map<string, Attrib>, a: string, b: string)
    requires a in t && b in t && Strings.SortedNames(t.Keys) == [a, b]
    ensures EmitAttrs(t) == EmitAttr(a, t[a]) + EmitAttr(b, t[b])
  {
    EmitNamesPair(t, a, b);
  }

  lemma EmitNamesPair(t: map<string, Attrib>, a: string, b: string)
    requires a in t && b in t
    ensures EmitNames([a, b], t) == EmitAttr(a, t[a]) + EmitAttr(b, t[b])
  {
    var names := [a, b];
    var ws := seq(|names|, i requires 0 <= i < |names| => EmitAttr(names[i], t[names[i]]));
    ConcatPair(ws, EmitAttr(a, t[a]), EmitAttr(b, t[b]));
  }

  /** Two pieces written one after the other. */
  lemma ConcatPair(ws: seq<string>, a: string, b: string)
    requires |ws| == 2 && ws[0] == a && ws[1] == b
    ensures Strings.Concat(ws) == a + b
  {
    assert ws == [a] + [b];
    Strings.ConcatAppend([a], [b]);
    Strings.ConcatSingle(a);
    Strings.ConcatSingle(b);
  }

  lemma TableIdClass(top: string, header: string)
    ensures Table([("id", Attrib(top, "")), ("class", Attrib(header, ""))]) ==
            map["id" := Attrib(top, ""), "class" := Attrib(header, "")]
  {
    var items := [("id", Attrib(top, "")), ("class", Attrib(header, ""))];
    assert items[..1] == [("id", Attrib(top, ""))];
    assert items[..1][..0] == [];
    assert Table(items[..1]) == map["id" := Attrib(top, "")];
    assert "class" !in Table(items[..1]);
  }

  /**
    `#top.header` writes its class before its id, whatever the declaration order: with the
    shape of `EmitUnguarded` that is ` class="header" id="top"`.
   */
  lemma EmitIdAndClass(top: string, header: string)
    ensures EmitAttrs(Table([("id", Attrib(top, "")), ("class", Attrib(header, ""))])) ==
            EmitAttr("class", Attrib(header, "")) + EmitAttr("id", Attrib(top, ""))
  {
    TableIdClass(top, header);
    EmitClassThenId(Table([("id", Attrib(top, "")), ("class", Attrib(header, ""))]));
  }
}
