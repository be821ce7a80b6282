/**
  The product category entity (`ProductCategory`): a category with an
  optional parent category, its deep copy constructor, its Lombok field-wise
  equality and its hand-written `toString`.

  The Java fields are nullable (`Long id`, `String code`, `String name`), so
  they are modelled as `Option` values; the parent reference is a nullable
  object reference.
 */
module Entities {
  import opened Common

  /** The value a category stands for: its fields and, recursively, its parent's. */
  datatype CategoryValue = CategoryValue(
    id: Option<int>,
    code: Option<string>,
    name: Option<string>,
    parent: Option<CategoryValue>)

  /** Number of categories on the chain that starts at `v`. */
  function Depth(v: CategoryValue): nat
  {
    match v.parent
    case None => 1
    case Some(p) => 1 + Depth(p)
  }

  /**
    Java's `String.length()`: the number of UTF-16 code units, so a character
    outside the Basic Multilingual Plane counts twice.
   */
  function JavaLength(s: string): (n: nat)
    ensures |s| <= n <= 2 * |s|
    ensures n == |s| <==> forall i :: 0 <= i < |s| ==> s[i] < '\U{10000}'
  {
    if s == [] then 0 else (if s[0] < '\U{10000}' then 1 else 2) + JavaLength(s[1..])
  }

  /**
    The `@Size` constraints, measured as Bean Validation measures a `String`,
    by `length()`; as there, a null value satisfies them.
   */
  predicate SizeValid(code: Option<string>, name: Option<string>)
  {
    && (code.Some? ==> 1 <= JavaLength(code.value) <= 50)
    && (name.Some? ==> 1 <= JavaLength(name.value) <= 100)
  }

  // ---------------------------------------------------------------------------
  // Text rendering, as Java's string concatenation performs it

  /** Decimal text of a natural number. */
  function NatText(n: nat): (r: string)
    ensures |r| >= 1
  {
    var d := ['0' + (n % 10) as char];
    if n < 10 then d else NatText(n / 10) + d
  }

  /** The value of a digit character. */
  function DigitValue(c: char): nat
  {
    if '0' <= c <= '9' then (c - '0') as nat else 0
  }

  /** Reads a string of decimal digits back as a number. */
  function ParseNat(s: string): nat
  {
    if s == [] then 0 else 10 * ParseNat(s[..|s| - 1]) + DigitValue(s[|s| - 1])
  }

  /** Reads the text of a `Long` back: "null", or an optional minus sign and digits. */
  function ParseLong(s: string): Option<int>
  {
    if s == "null" then None
    else if |s| > 0 && s[0] == '-' then Some(-(ParseNat(s[1..]) as int))
    else Some(ParseNat(s) as int)
  }

  /** The decimal text is all digits, without a leading zero unless the number is zero, and reads back as the number. */
  lemma {:induction false} NatTextRoundTrip(n: nat)
    ensures forall i :: 0 <= i < |NatText(n)| ==> '0' <= NatText(n)[i] <= '9'
    ensures n > 0 ==> NatText(n)[0] != '0'
    ensures ParseNat(NatText(n)) == n
  {
    var d := ['0' + (n % 10) as char];
    if n < 10 {
      assert NatText(n) == d;
      assert d[..0] == [];
    } else {
      NatTextRoundTrip(n / 10);
      var t := NatText(n / 10) + d;
      assert NatText(n) == t;
      assert t[..|t| - 1] == NatText(n / 10);
      assert t[0] == NatText(n / 10)[0];
    }
  }

  /** The text of a `Long` reads back as the same value, so distinct ids print differently. */
  lemma LongTextRoundTrip(o: Option<int>)
    ensures ParseLong(LongText(o)) == o
  {
    if o.Some? {
      var n := o.value;
      if n < 0 {
        NatTextRoundTrip(-n);
        var t := "-" + NatText(-n);
        assert t[1..] == NatText(-n);
        assert t != "null" by {
          assert t[0] == '-';
        }
      } else {
        NatTextRoundTrip(n);
        assert '0' <= NatText(n)[0] <= '9';
        assert NatText(n) != "null" by {
          assert "null"[0] == 'n';
        }
      }
    }
  }

  /** `"" + id` for a `Long`: "null" for null, a minus sign before negative numbers. */
  function LongText(o: Option<int>): string
  {
    match o
    case None => "null"
    case Some(n) => if n < 0 then "-" + NatText(-n) else NatText(n)
  }

  /** `"" + s` for a `String`: "null" for null. */
  function Text(o: Option<string>): string
  {
    match o
    case None => "null"
    case Some(s) => s
  }

  /** The three fields of the parent that `toString` prints. */
  datatype ParentSummary = ParentSummary(id: Option<int>, code: Option<string>, name: Option<string>)

  /** The parent part of the text: `, parent=null`, or the parent's fields, unquoted. */
  function ParentText(parent: Option<ParentSummary>): string
  {
    match parent
    case None => ", parent=null"
    case Some(p) =>
      ", parent=ProductCategory(" + "id=" + LongText(p.id) + ", code=" + Text(p.code) + ", name=" + Text(p.name) + ")"
  }

  /**
    The text `toString` builds from a category's own fields and, at most, its
    parent's: nothing further up the chain can reach it.
   */
  function Render(id: Option<int>, code: Option<string>, name: Option<string>, parent: Option<ParentSummary>): string
  {
    "ProductCategory(" + OwnText(id, code, name) + ParentText(parent) + ")"
  }

  /** The category's own fields, code and name in single quotes. */
  function OwnText(id: Option<int>, code: Option<string>, name: Option<string>): string
  {
    "id=" + LongText(id) + ", code='" + Text(code) + "'" + ", name='" + Text(name) + "'"
  }

  /** The parent summary of a category value, as `toString` sees it. */
  function SummaryOf(v: CategoryValue): Option<ParentSummary>
  {
    match v.parent
    case None => None
    case Some(p) => Some(ParentSummary(p.id, p.code, p.name))
  }

  /** The text of a category value. */
  function RenderValue(v: CategoryValue): string
  {
    Render(v.id, v.code, v.name, SummaryOf(v))
  }

  /**
    The length of the text is fixed by the printed fields alone: 38 characters
    of layout, plus 13 for a null parent or 43 plus the parent's three fields.
   */
  lemma RenderLength(id: Option<int>, code: Option<string>, name: Option<string>, parent: Option<ParentSummary>)
    ensures |Render(id, code, name, parent)|
         == 38 + |LongText(id)| + |Text(code)| + |Text(name)|
            + match parent
              case None => 13
              case Some(p) => 43 + |LongText(p.id)| + |Text(p.code)| + |Text(p.name)|
  {
  }

  /** A sequence is a prefix of any extension of it. */
  lemma PrefixOfAppend(a: string, b: string)
    ensures a <= a + b
  {
    assert (a + b)[..|a|] == a;
  }

  /** The category's own part of the text starts with the id. */
  lemma OwnTextStart(id: Option<int>, code: Option<string>, name: Option<string>)
    ensures "id=" <= OwnText(id, code, name)
  {
    var s1 := "id=" + LongText(id);
    var s2 := s1 + ", code='";
    var s3 := s2 + Text(code);
    var s4 := s3 + "'";
    var s5 := s4 + ", name='";
    var s6 := s5 + Text(name);
    PrefixOfAppend("id=", LongText(id));
    PrefixOfAppend(s1, ", code='");
    PrefixOfAppend(s2, Text(code));
    PrefixOfAppend(s3, "'");
    PrefixOfAppend(s4, ", name='");
    PrefixOfAppend(s5, Text(name));
    PrefixOfAppend(s6, "'");
  }

  /** The text starts with the class name and the id. */
  lemma RenderStart(id: Option<int>, code: Option<string>, name: Option<string>, parent: Option<ParentSummary>)
    ensures "ProductCategory(id=" <= Render(id, code, name, parent)
  {
    var t := "ProductCategory(" + OwnText(id, code, name);
    assert "ProductCategory(id=" <= t by {
      OwnTextStart(id, code, name);
      assert "ProductCategory(" + "id=" == "ProductCategory(id=";
    }
    PrefixOfAppend(t, ParentText(parent));
    PrefixOfAppend(t + ParentText(parent), ")");
  }

  /** The text ends with `, parent=null)` for a null parent, and with `))` otherwise. */
  lemma RenderEnd(id: Option<int>, code: Option<string>, name: Option<string>, parent: Option<ParentSummary>)
    ensures var r := Render(id, code, name, parent);
      && |r| > 14
      && (parent.None? ==> r[|r| - 14..] == ", parent=null)")
      && (parent.Some? ==> r[|r| - 2..] == "))")
  {
    var r := Render(id, code, name, parent);
    var front := "ProductCategory(" + OwnText(id, code, name);
    if parent.Some? {
      var p := parent.value;
      var inner := ", parent=ProductCategory(" + "id=" + LongText(p.id) + ", code=" + Text(p.code) + ", name=" + Text(p.name);
      assert r == (front + inner) + "))";
    } else {
      assert r == front + ", parent=null)";
    }
  }

  /** The text of a value never depends on the grandparent or anything above it. */
  lemma {:induction false} RenderIgnoresGrandparent(v: CategoryValue, above: Option<CategoryValue>)
    requires v.parent.Some?
    ensures RenderValue(v) == RenderValue(v.(parent := Some(v.parent.value.(parent := above))))
  {
    var w := v.(parent := Some(v.parent.value.(parent := above)));
    assert SummaryOf(w) == SummaryOf(v);
  }

  // ---------------------------------------------------------------------------
  // The entity

  class ProductCategory {
    var id: Option<int>
    var code: Option<string>
    var name: Option<string>
    var parent: ProductCategory?
    /** This category and all of its ancestors. */
    ghost var Repr: set<ProductCategory>

    /** The parent chain is finite and acyclic: each ancestor's footprint excludes its descendants. */
    ghost predicate Valid()
      reads this, Repr
      decreases Repr
    {
      && this in Repr
      && (parent == null ==> Repr == {this})
      && (parent != null ==>
            && parent in Repr
            && this !in parent.Repr
            && Repr == {this} + parent.Repr
            && parent.Valid())
    }

    /** The value this category stands for. */
    ghost function Value(): CategoryValue
      reads this, Repr
      requires Valid()
      decreases Repr
    {
      CategoryValue(id, code, name, if parent == null then None else Some(parent.Value()))
    }

    /** Lombok's no-argument constructor: every field null. */
    constructor Empty()
      ensures Valid() && fresh(Repr)
      ensures Value() == CategoryValue(None, None, None, None)
    {
      id, code, name, parent := None, None, None, null;
      new;
      Repr := {this};
    }

    /** Lombok's all-argument constructor. */
    constructor (id: Option<int>, code: Option<string>, name: Option<string>, parent: ProductCategory?)
      requires parent != null ==> parent.Valid()
      ensures Valid() && fresh(Repr - (if parent == null then {} else parent.Repr))
      ensures this.id == id && this.code == code && this.name == name && this.parent == parent
      ensures Value() == CategoryValue(id, code, name, if parent == null then None else Some(parent.Value()))
    {
      this.id, this.code, this.name, this.parent := id, code, name, parent;
      new;
      Repr := if parent == null then {this} else {this} + parent.Repr;
    }

    /**
      The copy constructor. It copies the three fields and, when there is a
      parent, a fresh copy of the parent, built the same way: the whole chain
      is copied, level by level, into new objects.
     */
    constructor Copy(source: ProductCategory)
      requires source.Valid()
      ensures Valid() && fresh(Repr)
      ensures id == source.id && code == source.code && name == source.name
      ensures (parent == null) == (source.parent == null)
      ensures Value() == source.Value()
      ensures Equals(source)
      ensures Repr !! source.Repr
      ensures SizeValid(source.code, source.name) ==> SizeValid(code, name)
      decreases source.Repr
    {
      var p: ProductCategory? := null;
      if source.parent != null {
        p := new ProductCategory.Copy(source.parent);
      }
      id, code, name, parent := source.id, source.code, source.name, p;
      new;
      Repr := if p == null then {this} else {this} + p.Repr;
      EqualsIffSameValue(this, source);
    }

    /**
      Lombok's field-wise `equals`: the same object, or another category with
      equal id, code and name whose parent is null exactly when this one's is,
      and otherwise equal to it.
     */
    predicate Equals(other: ProductCategory?): (r: bool)
      requires Valid()
      requires other != null ==> other.Valid()
      reads this, Repr, other, if other == null then {} else other.Repr
      ensures r ==> other != null && id == other.id && code == other.code && name == other.name
      ensures r ==> (parent == null <==> other.parent == null)
      ensures other == this ==> r
      decreases Repr
    {
      && other != null
      && (|| other == this
          || (&& id == other.id
              && code == other.code
              && name == other.name
              && (if parent == null then other.parent == null else parent.Equals(other.parent))))
    }

    /**
      `toString`: reads only this category and its immediate parent. The text
      opens with the class name and the id, and closes with `, parent=null)`
      when there is no parent, or with the parent's own closing parenthesis
      followed by this one's.
     */
    function ToString(): (r: string)
      reads this, parent
      ensures "ProductCategory(id=" <= r
      ensures |r| > 14
      ensures parent == null ==> r[|r| - 14..] == ", parent=null)"
      ensures parent != null ==> r[|r| - 2..] == "))"
    {
      var summary := if parent == null then None else Some(ParentSummary(parent.id, parent.code, parent.name));
      RenderStart(id, code, name, summary);
      RenderEnd(id, code, name, summary);
      Render(id, code, name, summary)
    }

    /** Lombok's setter for `name`. */
    method SetName(name: Option<string>)
      requires Valid()
      modifies this
      ensures Valid() && Repr == old(Repr)
      ensures this.name == name && id == old(id) && code == old(code) && parent == old(parent)
    {
      this.name := name;
    }
  }

  // ---------------------------------------------------------------------------
  // Properties of the entity

  /** Lombok equality coincides with equality of the values the two chains stand for. */
  lemma EqualsIffSameValue(a: ProductCategory, b: ProductCategory)
    requires a.Valid() && b.Valid()
    ensures a.Equals(b) <==> a.Value() == b.Value()
    decreases a.Repr
  {
    if a != b && a.parent != null && b.parent != null {
      EqualsIffSameValue(a.parent, b.parent);
    }
  }

  /** The chain that starts at a valid category holds as many categories as its footprint. */
  lemma ChainLength(c: ProductCategory)
    requires c.Valid()
    ensures Depth(c.Value()) == |c.Repr|
    decreases c.Repr
  {
    if c.parent != null {
      ChainLength(c.parent);
    }
  }

  /** The text of a valid category is the text of the value it stands for. */
  lemma ToStringOfValue(c: ProductCategory)
    requires c.Valid()
    ensures c.ToString() == RenderValue(c.Value())
  {
  }

  /** Two categories that stand for the same value have chains of the same length and the same text. */
  lemma SameValueSameShape(a: ProductCategory, b: ProductCategory)
    requires a.Valid() && b.Valid()
    requires a.Value() == b.Value()
    ensures |a.Repr| == |b.Repr|
    ensures a.ToString() == b.ToString()
  {
    ChainLength(a);
    ChainLength(b);
    ToStringOfValue(a);
    ToStringOfValue(b);
  }

  /** Renaming a copy leaves the source category, and its whole chain, as it was. */
  method RenameCopy(source: ProductCategory, name: Option<string>) returns (copy: ProductCategory)
    requires source.Valid()
    ensures copy.Valid() && fresh(copy.Repr)
    ensures copy.name == name && copy.id == source.id && copy.code == source.code
    ensures source.Value() == old(source.Value())
  {
    copy := new ProductCategory.Copy(source);
    copy.SetName(name);
  }
}
