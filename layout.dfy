/**
  The flexbox property model and the layout items: each property field is a
  closed enumeration whose `ToString` is a CSS keyword, and `Parse` is its
  inverse. The keywords of flex-direction, flex-wrap, justify-content,
  align-items and align-content come from the CSS Flexible Box Layout Module
  Level 1 (sections 5.1, 5.2, 8.2, 8.3 and 8.4), except `space-evenly`, which
  the CSS Box Alignment Module Level 3 adds to justify-content. Of the two
  display values, `flex` comes from the Flexible Box Layout Module and `block`
  from the CSS Display Module Level 3.
 */
module Layout {
  import opened Text

  /** A keyword: non-empty, lower-case letters and hyphens only. */
  predicate IsKeyword(s: string)
  {
    |s| >= 1 && forall i :: 0 <= i < |s| ==> ('a' <= s[i] <= 'z' || s[i] == '-')
  }

  lemma {:induction false} KeywordHasNoBreak(s: string)
    requires IsKeyword(s)
    ensures ' ' !in s && '\n' !in s
  {
  }

  datatype Display = Flex | Block {
    function ToString(): (r: string)
      ensures IsKeyword(r) && Parse(r) == Some(this)
    {
      match this
      case Flex => "flex"
      case Block => "block"
    }

    static function Parse(s: string): Option<Display>
    {
      if s == "flex" then Some(Flex)
      else if s == "block" then Some(Block)
      else None
    }
  }

  datatype FlexDirection = Row | RowReverse | Column | ColumnReverse {
    function ToString(): (r: string)
      ensures IsKeyword(r) && Parse(r) == Some(this)
    {
      match this
      case Row => "row"
      case RowReverse => "row-reverse"
      case Column => "column"
      case ColumnReverse => "column-reverse"
    }

    static function Parse(s: string): Option<FlexDirection>
    {
      if s == "row" then Some(Row)
      else if s == "row-reverse" then Some(RowReverse)
      else if s == "column" then Some(Column)
      else if s == "column-reverse" then Some(ColumnReverse)
      else None
    }
  }

  datatype FlexWrap = NoWrap | Wrap | WrapReverse {
    function ToString(): (r: string)
      ensures IsKeyword(r) && Parse(r) == Some(this)
    {
      match this
      case NoWrap => "nowrap"
      case Wrap => "wrap"
      case WrapReverse => "wrap-reverse"
    }

    static function Parse(s: string): Option<FlexWrap>
    {
      if s == "nowrap" then Some(NoWrap)
      else if s == "wrap" then Some(Wrap)
      else if s == "wrap-reverse" then Some(WrapReverse)
      else None
    }
  }

  datatype JustifyContent =
    | FlexStart | FlexEnd | Center | SpaceBetween | SpaceAround | SpaceEvenly
  {
    function ToString(): (r: string)
      ensures IsKeyword(r) && Parse(r) == Some(this)
    {
      match this
      case FlexStart => "flex-start"
      case FlexEnd => "flex-end"
      case Center => "center"
      case SpaceBetween => "space-between"
      case SpaceAround => "space-around"
      case SpaceEvenly => "space-evenly"
    }

    static function Parse(s: string): Option<JustifyContent>
    {
      if s == "flex-start" then Some(JustifyContent.FlexStart)
      else if s == "flex-end" then Some(JustifyContent.FlexEnd)
      else if s == "center" then Some(JustifyContent.Center)
      else if s == "space-between" then Some(JustifyContent.SpaceBetween)
      else if s == "space-around" then Some(JustifyContent.SpaceAround)
      else if s == "space-evenly" then Some(JustifyContent.SpaceEvenly)
      else None
    }
  }

  datatype AlignItems = FlexStart | FlexEnd | Center | Baseline | Stretch {
    function ToString(): (r: string)
      ensures IsKeyword(r) && Parse(r) == Some(this)
    {
      match this
      case FlexStart => "flex-start"
      case FlexEnd => "flex-end"
      case Center => "center"
      case Baseline => "baseline"
      case Stretch => "stretch"
    }

    static function Parse(s: string): Option<AlignItems>
    {
      if s == "flex-start" then Some(AlignItems.FlexStart)
      else if s == "flex-end" then Some(AlignItems.FlexEnd)
      else if s == "center" then Some(AlignItems.Center)
      else if s == "baseline" then Some(AlignItems.Baseline)
      else if s == "stretch" then Some(AlignItems.Stretch)
      else None
    }
  }

  datatype AlignContent =
    | FlexStart | FlexEnd | Center | SpaceBetween | SpaceAround | Stretch
  {
    function ToString(): (r: string)
      ensures IsKeyword(r) && Parse(r) == Some(this)
    {
      match this
      case FlexStart => "flex-start"
      case FlexEnd => "flex-end"
      case Center => "center"
      case SpaceBetween => "space-between"
      case SpaceAround => "space-around"
      case Stretch => "stretch"
    }

    static function Parse(s: string): Option<AlignContent>
    {
      if s == "flex-start" then Some(AlignContent.FlexStart)
      else if s == "flex-end" then Some(AlignContent.FlexEnd)
      else if s == "center" then Some(AlignContent.Center)
      else if s == "space-between" then Some(AlignContent.SpaceBetween)
      else if s == "space-around" then Some(AlignContent.SpaceAround)
      else if s == "stretch" then Some(AlignContent.Stretch)
      else None
    }
  }

  /** `FlexboxProperties`: one value per field; `gap` is a whole number of pixels. */
  datatype Properties = Properties(
    display: Display,
    flexDirection: FlexDirection,
    flexWrap: FlexWrap,
    justifyContent: JustifyContent,
    alignItems: AlignItems,
    alignContent: AlignContent,
    gap: nat)

  /** `LayoutItem`, without its style overrides (the generator never reads them);
      `labelText` is the item's `label` (`label` is a Dafny keyword). */
  datatype Item = Item(id: string, labelText: string)

  /** The record the playground starts from. */
  const Default := Properties(Flex, Row, NoWrap, JustifyContent.FlexStart,
                              AlignItems.Stretch, AlignContent.Stretch, 10)

  /** The keys of `FlexboxProperties`. */
  datatype Field =
    | DisplayField | FlexDirectionField | FlexWrapField | JustifyContentField
    | AlignItemsField | AlignContentField | GapField
  {
    /** The key as written in the record type (the dump's keys). */
    function Name(): string
    {
      match this
      case DisplayField => "display"
      case FlexDirectionField => "flexDirection"
      case FlexWrapField => "flexWrap"
      case JustifyContentField => "justifyContent"
      case AlignItemsField => "alignItems"
      case AlignContentField => "alignContent"
      case GapField => "gap"
    }

    /** The CSS property the key stands for. */
    function CssName(): string
    {
      match this
      case DisplayField => "display"
      case FlexDirectionField => "flex-direction"
      case FlexWrapField => "flex-wrap"
      case JustifyContentField => "justify-content"
      case AlignItemsField => "align-items"
      case AlignContentField => "align-content"
      case GapField => "gap"
    }

    /** The key's position in declaration order. */
    function Index(): (i: nat)
      ensures i < |Fields| && Fields[i] == this
    {
      match this
      case DisplayField => 0
      case FlexDirectionField => 1
      case FlexWrapField => 2
      case JustifyContentField => 3
      case AlignItemsField => 4
      case AlignContentField => 5
      case GapField => 6
    }
  }

  /** The keys in declaration order, which is also the key order of every
      record the application builds. */
  const Fields: seq<Field> := [DisplayField, FlexDirectionField, FlexWrapField,
    JustifyContentField, AlignItemsField, AlignContentField, GapField]

  /** `FlexboxProperties[K]`: a value of one field's type. */
  datatype FieldValue =
    | DisplayValue(display: Display)
    | FlexDirectionValue(flexDirection: FlexDirection)
    | FlexWrapValue(flexWrap: FlexWrap)
    | JustifyContentValue(justifyContent: JustifyContent)
    | AlignItemsValue(alignItems: AlignItems)
    | AlignContentValue(alignContent: AlignContent)
    | GapValue(gap: nat)
  {
    /** The key whose type this value has. */
    function FieldOf(): Field
    {
      match this
      case DisplayValue(_) => DisplayField
      case FlexDirectionValue(_) => FlexDirectionField
      case FlexWrapValue(_) => FlexWrapField
      case JustifyContentValue(_) => JustifyContentField
      case AlignItemsValue(_) => AlignItemsField
      case AlignContentValue(_) => AlignContentField
      case GapValue(_) => GapField
    }

    /** `${value}`: the keyword, or the number in decimal; reading it back
        as a value of the same key gives this value. */
    function ToString(): (r: string)
      ensures Parse(FieldOf(), r) == Some(this)
    {
      match this
      case DisplayValue(v) => v.ToString()
      case FlexDirectionValue(v) => v.ToString()
      case FlexWrapValue(v) => v.ToString()
      case JustifyContentValue(v) => v.ToString()
      case AlignItemsValue(v) => v.ToString()
      case AlignContentValue(v) => v.ToString()
      case GapValue(n) => ParseNatToString(n); NatToString(n)
    }

    /** Reads the text of a value of type `key`. */
    static function Parse(key: Field, s: string): (r: Option<FieldValue>)
      ensures r.Some? ==> r.value.FieldOf() == key
    {
      match key
      case DisplayField => (var v :- Display.Parse(s); Some(DisplayValue(v)))
      case FlexDirectionField => (var v :- FlexDirection.Parse(s); Some(FlexDirectionValue(v)))
      case FlexWrapField => (var v :- FlexWrap.Parse(s); Some(FlexWrapValue(v)))
      case JustifyContentField => (var v :- JustifyContent.Parse(s); Some(JustifyContentValue(v)))
      case AlignItemsField => (var v :- AlignItems.Parse(s); Some(AlignItemsValue(v)))
      case AlignContentField => (var v :- AlignContent.Parse(s); Some(AlignContentValue(v)))
      case GapField => (var n :- ParseNat(s); Some(GapValue(n)))
    }
  }

  /** `properties[key]`. */
  function Get(p: Properties, key: Field): (v: FieldValue)
    ensures v.FieldOf() == key
  {
    match key
    case DisplayField => DisplayValue(p.display)
    case FlexDirectionField => FlexDirectionValue(p.flexDirection)
    case FlexWrapField => FlexWrapValue(p.flexWrap)
    case JustifyContentField => JustifyContentValue(p.justifyContent)
    case AlignItemsField => AlignItemsValue(p.alignItems)
    case AlignContentField => AlignContentValue(p.alignContent)
    case GapField => GapValue(p.gap)
  }

  /** The record's values in key order. */
  function Values(p: Properties): (vs: seq<FieldValue>)
    ensures |vs| == |Fields|
    ensures forall i :: 0 <= i < |Fields| ==> vs[i].FieldOf() == Fields[i]
  {
    seq(|Fields|, i requires 0 <= i < |Fields| => Get(p, Fields[i]))
  }

  /** The record holding `vs` in key order, when each value has its key's type. */
  function FromValues(vs: seq<FieldValue>): (r: Option<Properties>)
    ensures r.Some? <==> |vs| == |Fields| && forall i :: 0 <= i < |Fields| ==> vs[i].FieldOf() == Fields[i]
    ensures r.Some? ==> Values(r.value) == vs
  {
    if |vs| == 7 && vs[0].DisplayValue? && vs[1].FlexDirectionValue? && vs[2].FlexWrapValue?
      && vs[3].JustifyContentValue? && vs[4].AlignItemsValue? && vs[5].AlignContentValue?
      && vs[6].GapValue?
    then
      var p := Properties(vs[0].display, vs[1].flexDirection, vs[2].flexWrap,
                          vs[3].justifyContent, vs[4].alignItems, vs[5].alignContent, vs[6].gap);
      assert Values(p) == vs;
      Some(p)
    else
      None
  }

  /** A record is rebuilt from its values. */
  lemma {:induction false} FromValuesOfValues(p: Properties)
    ensures FromValues(Values(p)) == Some(p)
  {
    var r := FromValues(Values(p));
    assert r.Some?;
    assert Get(r.value, DisplayField) == Values(r.value)[0] == Values(p)[0];
    assert Get(r.value, GapField) == Values(r.value)[6] == Values(p)[6];
  }

  /** Two records that agree on every key are the same record. */
  lemma {:induction false} Extensionality(p: Properties, q: Properties)
    requires forall k: Field :: Get(p, k) == Get(q, k)
    ensures p == q
  {
    assert Get(p, DisplayField) == Get(q, DisplayField);
    assert Get(p, FlexDirectionField) == Get(q, FlexDirectionField);
    assert Get(p, FlexWrapField) == Get(q, FlexWrapField);
    assert Get(p, JustifyContentField) == Get(q, JustifyContentField);
    assert Get(p, AlignItemsField) == Get(q, AlignItemsField);
    assert Get(p, AlignContentField) == Get(q, AlignContentField);
    assert Get(p, GapField) == Get(q, GapField);
  }

  /** No rendered value holds a line break. */
  lemma {:induction false} ValueHasNoLineBreak(v: FieldValue)
    ensures '\n' !in v.ToString()
  {
    match v
    case GapValue(n) =>
      var s := NatToString(n);
      assert forall i :: 0 <= i < |s| ==> s[i] != '\n';
    case DisplayValue(d) => KeywordHasNoBreak(d.ToString());
    case FlexDirectionValue(d) => KeywordHasNoBreak(d.ToString());
    case FlexWrapValue(w) => KeywordHasNoBreak(w.ToString());
    case JustifyContentValue(j) => KeywordHasNoBreak(j.ToString());
    case AlignItemsValue(a) => KeywordHasNoBreak(a.ToString());
    case AlignContentValue(a) => KeywordHasNoBreak(a.ToString());
  }
}
