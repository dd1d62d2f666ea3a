/**
 * `buildSelect` of src/lib/supaQuery.js: it renders a list of relation
 * descriptions as the select string of a PostgREST-style query, e.g.
 * `order_items:order_id(menu(*))`.
 */
module SupaQuery {
  import opened Js

  /** One entry of `relations`: a string, an object with `relation`,
      `foreignKey` and `nested`, `null`, or any other value (a number, a
      boolean, `undefined`, ...). */
  datatype Rel =
    | Name(name: string)
    | Obj(relation: Option<string>, foreignKey: Option<string>, nested: Nested)
    | Null
    | Other

  /** `rel.nested`: falsy, or an array of further entries (an empty array is truthy). */
  datatype Nested = Absent | Present(children: seq<Rel>)

  /** How a call ends: a value, the `Invalid includeRelations format` Error,
      or the TypeError of reading `relation` off `null`. */
  datatype Built<T> = Ok(value: T) | InvalidFormat | NullAccess

  const InvalidFormatMessage: string := "Invalid includeRelations format"

  /** A template-literal placeholder: a missing value prints as "undefined". */
  function Interpolate(x: Option<string>): string
  {
    if x.Some? then x.value else "undefined"
  }

  /** `parts.join(sep)`. */
  function Join(parts: seq<string>, sep: string): (r: string)
    ensures parts == [] ==> r == ""
    ensures |parts| == 1 ==> r == parts[0]
  {
    if parts == [] then ""
    else if |parts| == 1 then parts[0]
    else parts[0] + sep + Join(parts[1..], sep)
  }

  lemma {:induction false} JoinConcat(a: seq<string>, b: seq<string>, sep: string)
    requires a != [] && b != []
    ensures Join(a + b, sep) == Join(a, sep) + sep + Join(b, sep)
  {
    if |a| > 1 {
      assert (a + b)[1..] == a[1..] + b;
      JoinConcat(a[1..], b, sep);
    } else {
      assert (a + b)[1..] == b;
    }
  }

  /** The callback of `.map`, for one entry. */
  function Segment(rel: Rel): Built<string>
  {
    match rel
    case Name(n) => Ok(n + "(*)")
    case Null => NullAccess
    case Other => InvalidFormat
    case Obj(r, fk, nested) =>
      if !TruthyString(r) then InvalidFormat
      else if nested.Absent? then Ok(r.value + ":" + Interpolate(fk) + "(*)")
      else
        match Segments(nested.children)
        case Ok(parts) => Ok(r.value + ":" + Interpolate(fk) + "(" + Join(parts, ", ") + ")")
        case InvalidFormat => InvalidFormat
        case NullAccess => NullAccess
  }

  /** `relations.map(...)`: the segments in order; the first entry that
      throws ends the call with its error. */
  function Segments(rels: seq<Rel>): Built<seq<string>>
  {
    if rels == [] then Ok([])
    else
      match Segment(rels[0])
      case InvalidFormat => InvalidFormat
      case NullAccess => NullAccess
      case Ok(s) =>
        match Segments(rels[1..])
        case Ok(ss) => Ok([s] + ss)
        case InvalidFormat => InvalidFormat
        case NullAccess => NullAccess
  }

  /** `buildSelect(relations)`. */
  function BuildSelect(rels: seq<Rel>): (r: Built<string>)
    ensures rels == [] ==> r == Ok("")
  {
    match Segments(rels)
    case Ok(parts) => Ok(Join(parts, ", "))
    case InvalidFormat => InvalidFormat
    case NullAccess => NullAccess
  }

  // ---------------------------------------------------------------------
  // Which inputs are accepted

  /** An entry `buildSelect` accepts: a string, or an object with a truthy
      `relation` whose nested entries, if any, are all accepted. */
  predicate WellFormed(rel: Rel)
  {
    match rel
    case Name(_) => true
    case Obj(r, _, nested) => TruthyString(r) && (nested.Present? ==> AllWellFormed(nested.children))
    case Null => false
    case Other => false
  }

  predicate AllWellFormed(rels: seq<Rel>)
  {
    forall i :: 0 <= i < |rels| ==> WellFormed(rels[i])
  }

  /** An entry renders exactly when it is well formed. */
  lemma {:induction false} SegmentOk(rel: Rel)
    ensures Segment(rel).Ok? <==> WellFormed(rel)
  {
    match rel
    case Obj(r, _, nested) =>
      if TruthyString(r) && nested.Present? {
        SegmentsOk(nested.children);
      }
    case _ =>
  }

  /** A list renders exactly when all its entries are well formed, and then
      into one segment per entry. */
  lemma {:induction false} SegmentsOk(rels: seq<Rel>)
    ensures Segments(rels).Ok? <==> AllWellFormed(rels)
    ensures Segments(rels).Ok? ==> |Segments(rels).value| == |rels|
    decreases rels, 1
  {
    if rels != [] {
      SegmentOk(rels[0]);
      SegmentsOk(rels[1..]);
      assert forall i :: 1 <= i < |rels| ==> rels[i] == rels[1..][i - 1];
    }
  }

  /** `buildSelect` throws exactly when some entry, at any depth, is malformed. */
  lemma BuildSelectOk(rels: seq<Rel>)
    ensures BuildSelect(rels).Ok? <==> AllWellFormed(rels)
  {
    SegmentsOk(rels);
  }

  /** When the list fails, it fails with the error of its first entry that
      does not render. */
  lemma {:induction false} FirstErrorWins(rels: seq<Rel>)
    requires !Segments(rels).Ok?
    ensures exists k :: 0 <= k < |rels| && !Segment(rels[k]).Ok?
              && (forall i :: 0 <= i < k ==> Segment(rels[i]).Ok?)
              && (Segments(rels).InvalidFormat? <==> Segment(rels[k]).InvalidFormat?)
  {
    if Segment(rels[0]).Ok? {
      FirstErrorWins(rels[1..]);
      var k :| 0 <= k < |rels[1..]| && !Segment(rels[1..][k]).Ok?
                && (forall i :: 0 <= i < k ==> Segment(rels[1..][i]).Ok?)
                && (Segments(rels[1..]).InvalidFormat? <==> Segment(rels[1..][k]).InvalidFormat?);
      assert forall i :: 0 <= i < k ==> rels[1..][i] == rels[i + 1];
      assert rels[k + 1] == rels[1..][k];
      assert forall i :: 0 <= i < k + 1 ==> Segment(rels[i]).Ok?;
    } else {
      assert !Segment(rels[0]).Ok?;
    }
  }

  /** Rendering a concatenation joins the two renderings with ", ". */
  lemma {:induction false} SegmentsConcat(a: seq<Rel>, b: seq<Rel>)
    requires Segments(a).Ok? && Segments(b).Ok?
    ensures Segments(a + b) == Ok(Segments(a).value + Segments(b).value)
  {
    if a != [] {
      assert (a + b)[0] == a[0] && (a + b)[1..] == a[1..] + b;
      var s0, rest := Segment(a[0]).value, Segments(a[1..]).value;
      assert Segments(a).value == [s0] + rest;
      SegmentsConcat(a[1..], b);
      assert Segments(a + b).value == [s0] + (rest + Segments(b).value);
      assert [s0] + (rest + Segments(b).value) == ([s0] + rest) + Segments(b).value;
    } else {
      assert a + b == b;
      assert Segments(a).value == [];
      assert Segments(a).value + Segments(b).value == Segments(b).value;
    }
  }

  lemma BuildSelectConcat(a: seq<Rel>, b: seq<Rel>)
    requires a != [] && b != [] && BuildSelect(a).Ok? && BuildSelect(b).Ok?
    ensures BuildSelect(a + b) == Ok(BuildSelect(a).value + ", " + BuildSelect(b).value)
  {
    SegmentsOk(a);
    SegmentsOk(b);
    SegmentsConcat(a, b);
    JoinConcat(Segments(a).value, Segments(b).value, ", ");
  }

  /** A list of plain names renders as each name with `(*)`. */
  lemma {:induction false} NamesRender(names: seq<string>)
    ensures Segments(seq(|names|, i requires 0 <= i < |names| => Name(names[i])))
            == Ok(seq(|names|, i requires 0 <= i < |names| => names[i] + "(*)"))
  {
    if names == [] {
      assert seq(|names|, i requires 0 <= i < |names| => Name(names[i])) == [];
      assert seq(|names|, i requires 0 <= i < |names| => names[i] + "(*)") == [];
    } else {
      NamesRender(names[1..]);
      var rels := seq(|names|, i requires 0 <= i < |names| => Name(names[i]));
      assert rels[1..] == seq(|names[1..]|, i requires 0 <= i < |names[1..]| => Name(names[1..][i]));
      assert seq(|names|, i requires 0 <= i < |names| => names[i] + "(*)")
             == [names[0] + "(*)"] + seq(|names[1..]|, i requires 0 <= i < |names[1..]| => names[1..][i] + "(*)");
    }
  }

  /** The nested form, as the order view would request it. */
  lemma NestedExample()
    ensures BuildSelect([Obj(Some("order_items"), Some("order_id"), Present([Name("menu")]))])
            == Ok("order_items:order_id(menu(*))")
  {
    var inner := [Name("menu")];
    assert inner[1..] == [];
    assert "menu" + "(*)" == "menu(*)";
    assert Segment(inner[0]) == Ok("menu(*)");
    assert Segments(inner[1..]) == Ok([]);
    assert ["menu(*)"] + [] == ["menu(*)"];
    assert Segments(inner) == Ok(["menu(*)"]);
    var outer := [Obj(Some("order_items"), Some("order_id"), Present(inner))];
    assert outer[1..] == [];
    assert Join(["menu(*)"], ", ") == "menu(*)";
    assert "order_items" + ":" + "order_id" + "(" + "menu(*)" + ")" == "order_items:order_id(menu(*))";
    assert Segment(outer[0]) == Ok("order_items:order_id(menu(*))");
  }

  /** An object without `nested` renders as `relation:foreignKey(*)`. */
  lemma FlatObjectExample()
    ensures BuildSelect([Obj(Some("r"), Some("fk"), Absent)]) == Ok("r:fk(*)")
  {
    var rels := [Obj(Some("r"), Some("fk"), Absent)];
    assert rels[1..] == [];
    assert "r" + ":" + "fk" + "(*)" == "r:fk(*)";
    assert Segment(rels[0]) == Ok("r:fk(*)");
    assert Segments(rels[1..]) == Ok([]);
    assert ["r:fk(*)"] + [] == ["r:fk(*)"];
    assert Join(["r:fk(*)"], ", ") == "r:fk(*)";
  }

  /** An empty `nested` array is truthy, so it renders as empty parentheses. */
  lemma EmptyNestedExample()
    ensures BuildSelect([Obj(Some("r"), Some("fk"), Present([]))]) == Ok("r:fk()")
  {
    var rels := [Obj(Some("r"), Some("fk"), Present([]))];
    assert rels[1..] == [];
    assert Join([], ", ") == "";
    assert "r" + ":" + "fk" + "(" + "" + ")" == "r:fk()";
    assert Segments([]) == Ok([]);
    assert Segment(rels[0]) == Ok("r:fk()");
    assert Segments(rels[1..]) == Ok([]);
    assert ["r:fk()"] + [] == ["r:fk()"];
    assert Join(["r:fk()"], ", ") == "r:fk()";
  }
}
