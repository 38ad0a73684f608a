/**
  The export dialog's code generator: from a property record, the items and
  a layout name to the Tailwind class string, the HTML markup, the
  stylesheet, the React component source and the property dump. Every
  generator is a function of its inputs; none changes them.
 */
module CodeGen {
  import opened Text
  import opened Layout

  // ---------------------------------------------------------------------
  // Tailwind class string

  /** A class token: non-empty, and free of the space that separates tokens
      and of line breaks. */
  predicate IsClassToken(t: string)
  {
    |t| >= 1 && ' ' !in t && '\n' !in t
  }

  predicate AllClassTokens(ts: seq<string>)
  {
    forall i :: 0 <= i < |ts| ==> IsClassToken(ts[i])
  }

  /** `flex-${flexDirection}`: the CSS keyword itself, so `column` yields
      `flex-column` (not Tailwind's `flex-col`). */
  function DirectionClass(d: FlexDirection): (r: string)
    ensures IsClassToken(r) && HasPrefix(r, "flex-") && r[5..] == d.ToString()
  {
    KeywordHasNoBreak(d.ToString());
    "flex-" + d.ToString()
  }

  /** `flex-${flexWrap}`. */
  function WrapClass(w: FlexWrap): (r: string)
    ensures IsClassToken(r) && HasPrefix(r, "flex-") && r[5..] == w.ToString()
  {
    KeywordHasNoBreak(w.ToString());
    "flex-" + w.ToString()
  }

  /** `justifyMap`: one `justify-*` class per justification. */
  function JustifyClass(j: JustifyContent): (r: string)
    ensures IsClassToken(r) && HasPrefix(r, "justify-")
    ensures JustifyOfClass(r) == Some(j)
  {
    match j
    case FlexStart => "justify-start"
    case FlexEnd => "justify-end"
    case Center => "justify-center"
    case SpaceBetween => "justify-between"
    case SpaceAround => "justify-around"
    case SpaceEvenly => "justify-evenly"
  }

  /** The inverse of `justifyMap`: which justification a class stands for. */
  function JustifyOfClass(t: string): Option<JustifyContent>
  {
    if t == "justify-start" then Some(JustifyContent.FlexStart)
    else if t == "justify-end" then Some(JustifyContent.FlexEnd)
    else if t == "justify-center" then Some(JustifyContent.Center)
    else if t == "justify-between" then Some(JustifyContent.SpaceBetween)
    else if t == "justify-around" then Some(JustifyContent.SpaceAround)
    else if t == "justify-evenly" then Some(JustifyContent.SpaceEvenly)
    else None
  }

  /** `alignMap`: one `items-*` class per alignment. */
  function AlignClass(a: AlignItems): (r: string)
    ensures IsClassToken(r) && HasPrefix(r, "items-")
    ensures AlignOfClass(r) == Some(a)
  {
    match a
    case FlexStart => "items-start"
    case FlexEnd => "items-end"
    case Center => "items-center"
    case Baseline => "items-baseline"
    case Stretch => "items-stretch"
  }

  /** The inverse of `alignMap`. */
  function AlignOfClass(t: string): Option<AlignItems>
  {
    if t == "items-start" then Some(AlignItems.FlexStart)
    else if t == "items-end" then Some(AlignItems.FlexEnd)
    else if t == "items-center" then Some(AlignItems.Center)
    else if t == "items-baseline" then Some(AlignItems.Baseline)
    else if t == "items-stretch" then Some(AlignItems.Stretch)
    else None
  }

  /** JavaScript's `Math.round`: the nearest integer, halves rounded up. */
  function JsRound(x: real): int
  {
    (x + 0.5).Floor
  }

  /** `Math.round(gap / 4)` for a whole number of pixels, in integer arithmetic. */
  function GapStep(gap: nat): (n: nat)
    ensures n == JsRound(gap as real / 4.0)
  {
    var q, r := (gap + 2) / 4, (gap + 2) % 4;
    assert gap + 2 == 4 * q + r;
    assert gap as real / 4.0 + 0.5 == q as real + r as real / 4.0;
    q
  }

  /** `gap-${Math.round(gap / 4)}`. */
  function GapClass(gap: nat): (r: string)
    ensures IsClassToken(r) && HasPrefix(r, "gap-")
  {
    var digits := NatToString(GapStep(gap));
    assert forall i :: 0 <= i < |digits| ==> digits[i] != ' ' && digits[i] != '\n';
    "gap-" + digits
  }

  /** The direction modifier pushed when the direction is not `row`. */
  function DirectionPart(p: Properties): (t: seq<string>)
    ensures AllClassTokens(t)
  {
    if p.flexDirection != Row then [DirectionClass(p.flexDirection)] else []
  }

  /** The wrap modifier pushed when the wrap mode is not `nowrap`. */
  function WrapPart(p: Properties): (t: seq<string>)
    ensures AllClassTokens(t)
  {
    if p.flexWrap != NoWrap then [WrapClass(p.flexWrap)] else []
  }

  /** The two classes from the fixed maps. */
  function AlignmentPart(p: Properties): (t: seq<string>)
    ensures AllClassTokens(t)
  {
    [JustifyClass(p.justifyContent), AlignClass(p.alignItems)]
  }

  /** The gap class pushed when the gap is positive. */
  function GapPart(p: Properties): (t: seq<string>)
    ensures AllClassTokens(t)
  {
    if p.gap > 0 then [GapClass(p.gap)] else []
  }

  /** The `classes` array that `generateTailwindClasses` builds. */
  function ClassTokens(p: Properties): (t: seq<string>)
    ensures 3 <= |t| <= 6 && t[0] == "flex"
  {
    ["flex"] + DirectionPart(p) + WrapPart(p) + AlignmentPart(p) + GapPart(p)
  }

  /** The class string: the tokens joined by single spaces, so that
      splitting it on a space gives every token back, in order. */
  function ClassString(p: Properties): (r: string)
    ensures Split(r, ' ') == ClassTokens(p)
  {
    ClassTokensAreTokens(p);
    SplitJoin(ClassTokens(p), ' ');
    Join(ClassTokens(p), " ")
  }

  /** `generateTailwindClasses`: start from `['flex']`, push the modifiers
      whose conditions hold, then join with single spaces. */
  method GenerateTailwindClasses(p: Properties) returns (s: string)
    ensures s == ClassString(p)
    ensures Split(s, ' ') == ClassTokens(p)
    ensures HasPrefix(s, "flex")
  {
    var classes := ["flex"];
    if p.flexDirection != Row {
      classes := classes + [DirectionClass(p.flexDirection)];
    }
    assert classes == ["flex"] + DirectionPart(p);
    if p.flexWrap != NoWrap {
      classes := classes + [WrapClass(p.flexWrap)];
    }
    assert classes == ["flex"] + DirectionPart(p) + WrapPart(p);
    classes := classes + [JustifyClass(p.justifyContent)];
    classes := classes + [AlignClass(p.alignItems)];
    assert classes == ["flex"] + DirectionPart(p) + WrapPart(p) + AlignmentPart(p);
    if p.gap > 0 {
      classes := classes + [GapClass(p.gap)];
    }
    assert classes == ClassTokens(p);
    s := Join(classes, " ");
    ClassStringStartsWithFlex(p);
  }

  lemma {:induction false} AllClassTokensAppend(a: seq<string>, b: seq<string>)
    requires AllClassTokens(a) && AllClassTokens(b)
    ensures AllClassTokens(a + b)
  {
    forall i | 0 <= i < |a + b| ensures IsClassToken((a + b)[i]) {
      if i < |a| { assert (a + b)[i] == a[i]; } else { assert (a + b)[i] == b[i - |a|]; }
    }
  }

  /** Every class token is non-empty and holds neither a space nor a line break. */
  lemma {:induction false} ClassTokensAreTokens(p: Properties)
    ensures AllClassTokens(ClassTokens(p))
  {
    var a: seq<string> := ["flex"];
    assert IsClassToken("flex");
    AllClassTokensAppend(a, DirectionPart(p));
    AllClassTokensAppend(a + DirectionPart(p), WrapPart(p));
    AllClassTokensAppend(a + DirectionPart(p) + WrapPart(p), AlignmentPart(p));
    AllClassTokensAppend(a + DirectionPart(p) + WrapPart(p) + AlignmentPart(p), GapPart(p));
  }

  lemma {:induction false} ClassStringOnOneLine(p: Properties)
    ensures '\n' !in ClassString(p)
  {
    ClassTokensAreTokens(p);
    JoinExcludes(ClassTokens(p), " ", '\n');
  }

  /** The class string starts with `flex`, whatever `display` is, even `block`. */
  lemma {:induction false} ClassStringStartsWithFlex(p: Properties)
    ensures HasPrefix(ClassString(p), "flex")
    ensures ClassString(p)[..4] == "flex"
  {
    var t := ClassTokens(p);
    assert Join(t, " ") == "flex" + " " + Join(t[1..], " ");
  }

  /** Tokens starting with `prefix`. */
  function CountWithPrefix(ts: seq<string>, prefix: string): nat
  {
    if |ts| == 0 then 0
    else (if HasPrefix(ts[0], prefix) then 1 else 0) + CountWithPrefix(ts[1..], prefix)
  }

  lemma {:induction false} CountWithPrefixAppend(a: seq<string>, b: seq<string>, prefix: string)
    ensures CountWithPrefix(a + b, prefix) == CountWithPrefix(a, prefix) + CountWithPrefix(b, prefix)
  {
    if |a| > 0 {
      assert (a + b)[1..] == a[1..] + b;
      CountWithPrefixAppend(a[1..], b, prefix);
    } else {
      assert a + b == b;
    }
  }

  lemma {:induction false} CountSingleton(x: string, prefix: string)
    ensures CountWithPrefix([x], prefix) == if HasPrefix(x, prefix) then 1 else 0
  {
    assert [x][1..] == [];
  }

  /** Tokens that begin with different characters do not share a prefix. */
  lemma {:induction false} PrefixesDiffer(t: string, a: string, b: string)
    requires HasPrefix(t, a) && |a| >= 1 && |b| >= 1 && a[0] != b[0]
    ensures !HasPrefix(t, b)
  {
    assert t[0] == a[0];
  }

  /** The kinds of token, told apart by their first characters. */
  lemma {:induction false} TokenKinds(p: Properties)
    ensures !HasPrefix(JustifyClass(p.justifyContent), "items-")
      && !HasPrefix(JustifyClass(p.justifyContent), "gap-")
      && !HasPrefix(JustifyClass(p.justifyContent), "flex-")
    ensures !HasPrefix(AlignClass(p.alignItems), "justify-")
      && !HasPrefix(AlignClass(p.alignItems), "gap-")
      && !HasPrefix(AlignClass(p.alignItems), "flex-")
    ensures !HasPrefix(GapClass(p.gap), "justify-") && !HasPrefix(GapClass(p.gap), "items-")
      && !HasPrefix(GapClass(p.gap), "flex-")
  {
    PrefixesDiffer(JustifyClass(p.justifyContent), "justify-", "items-");
    PrefixesDiffer(JustifyClass(p.justifyContent), "justify-", "gap-");
    PrefixesDiffer(JustifyClass(p.justifyContent), "justify-", "flex-");
    PrefixesDiffer(AlignClass(p.alignItems), "items-", "justify-");
    PrefixesDiffer(AlignClass(p.alignItems), "items-", "gap-");
    PrefixesDiffer(AlignClass(p.alignItems), "items-", "flex-");
    PrefixesDiffer(GapClass(p.gap), "gap-", "justify-");
    PrefixesDiffer(GapClass(p.gap), "gap-", "items-");
    PrefixesDiffer(GapClass(p.gap), "gap-", "flex-");
  }

  /** A one-token part whose token starts with `flex-` has no token starting with `prefix`. */
  lemma {:induction false} ModifierPartCount(part: seq<string>, prefix: string)
    requires |part| <= 1 && (|part| == 1 ==> HasPrefix(part[0], "flex-"))
    requires |prefix| >= 1 && prefix[0] != 'f'
    ensures CountWithPrefix(part, prefix) == 0
  {
    if |part| == 1 {
      assert part == [part[0]];
      CountSingleton(part[0], prefix);
      PrefixesDiffer(part[0], "flex-", prefix);
    }
  }

  /** The token counts by prefix, part by part of the class list. */
  lemma {:induction false} CountsByPart(p: Properties, prefix: string)
    requires |prefix| >= 1 && prefix[0] != 'f'
    ensures CountWithPrefix(ClassTokens(p), prefix) ==
      (if HasPrefix(JustifyClass(p.justifyContent), prefix) then 1 else 0)
      + (if HasPrefix(AlignClass(p.alignItems), prefix) then 1 else 0)
      + (if p.gap > 0 && HasPrefix(GapClass(p.gap), prefix) then 1 else 0)
  {
    var j, al := JustifyClass(p.justifyContent), AlignClass(p.alignItems);
    var a: seq<string> := ["flex"];
    var b, c, d, e := DirectionPart(p), WrapPart(p), AlignmentPart(p), GapPart(p);
    assert CountWithPrefix(a, prefix) == 0 by {
      CountSingleton("flex", prefix);
      assert "flex"[0] == 'f';
    }
    ModifierPartCount(b, prefix);
    ModifierPartCount(c, prefix);
    assert CountWithPrefix(d, prefix) ==
      (if HasPrefix(j, prefix) then 1 else 0) + (if HasPrefix(al, prefix) then 1 else 0)
    by {
      CountSingleton(j, prefix);
      CountSingleton(al, prefix);
      CountWithPrefixAppend([j], [al], prefix);
      assert d == [j] + [al];
    }
    assert CountWithPrefix(e, prefix) == (if p.gap > 0 && HasPrefix(GapClass(p.gap), prefix) then 1 else 0) by {
      if p.gap > 0 { CountSingleton(GapClass(p.gap), prefix); }
    }
    CountWithPrefixAppend(a, b, prefix);
    CountWithPrefixAppend(a + b, c, prefix);
    CountWithPrefixAppend(a + b + c, d, prefix);
    CountWithPrefixAppend(a + b + c + d, e, prefix);
  }

  /** Exactly one `justify-*` token, the one `justifyMap` gives. */
  lemma {:induction false} ExactlyOneJustifyToken(p: Properties)
    ensures CountWithPrefix(ClassTokens(p), "justify-") == 1
    ensures JustifyClass(p.justifyContent) in ClassTokens(p)
  {
    CountsByPart(p, "justify-");
    TokenKinds(p);
    assert JustifyClass(p.justifyContent) in AlignmentPart(p);
  }

  /** Exactly one `items-*` token, the one `alignMap` gives. */
  lemma {:induction false} ExactlyOneItemsToken(p: Properties)
    ensures CountWithPrefix(ClassTokens(p), "items-") == 1
    ensures AlignClass(p.alignItems) in ClassTokens(p)
  {
    CountsByPart(p, "items-");
    TokenKinds(p);
    assert AlignClass(p.alignItems) in AlignmentPart(p);
  }

  /** A `gap-N` token exists iff the gap is positive; it is then the last token
      and N is `Math.round(gap / 4)`. */
  lemma {:induction false} GapToken(p: Properties)
    ensures CountWithPrefix(ClassTokens(p), "gap-") == (if p.gap > 0 then 1 else 0)
    ensures p.gap > 0 ==>
      ClassTokens(p)[|ClassTokens(p)| - 1] == "gap-" + NatToString(JsRound(p.gap as real / 4.0))
  {
    CountsByPart(p, "gap-");
    TokenKinds(p);
  }

  /** `justifyMap` and `alignMap` are one-to-one. */
  lemma {:induction false} ClassMapsInjective(j1: JustifyContent, j2: JustifyContent, a1: AlignItems, a2: AlignItems)
    ensures JustifyClass(j1) == JustifyClass(j2) ==> j1 == j2
    ensures AlignClass(a1) == AlignClass(a2) ==> a1 == a2
  {
    assert JustifyOfClass(JustifyClass(j1)) == Some(j1);
    assert AlignOfClass(AlignClass(a1)) == Some(a1);
  }

  /** No direction keyword is also a wrap keyword, so a direction modifier
      is never a wrap modifier. */
  lemma {:induction false} DirectionClassIsNotWrapClass(d: FlexDirection, w: FlexWrap)
    ensures DirectionClass(d) != WrapClass(w)
  {
    assert FlexDirection.Parse(w.ToString()) == None;
  }

  /** A `flex-*` modifier is none of the tokens that every class list holds. */
  lemma {:induction false} ModifierIsNotFixedToken(p: Properties, x: string)
    requires HasPrefix(x, "flex-")
    ensures x !in ["flex"] && x !in AlignmentPart(p) && x !in GapPart(p)
  {
    TokenKinds(p);
  }

  /** A `flex-<direction>` token is present iff it is the record's direction
      and that direction is not `row`. */
  lemma {:induction false} DirectionTokenPresent(p: Properties, d: FlexDirection)
    ensures DirectionClass(d) in ClassTokens(p) <==> d == p.flexDirection && d != Row
  {
    var x := DirectionClass(d);
    ModifierIsNotFixedToken(p, x);
    assert x in DirectionPart(p) <==> d == p.flexDirection && d != Row;
    assert x !in WrapPart(p) by {
      if p.flexWrap != NoWrap { DirectionClassIsNotWrapClass(d, p.flexWrap); }
    }
  }

  /** A `flex-<wrap>` token is present iff it is the record's wrap mode and
      that mode is not `nowrap`. */
  lemma {:induction false} WrapTokenPresent(p: Properties, w: FlexWrap)
    ensures WrapClass(w) in ClassTokens(p) <==> w == p.flexWrap && w != NoWrap
  {
    var x := WrapClass(w);
    ModifierIsNotFixedToken(p, x);
    assert x in WrapPart(p) <==> w == p.flexWrap && w != NoWrap;
    assert x !in DirectionPart(p) by {
      if p.flexDirection != Row { DirectionClassIsNotWrapClass(p.flexDirection, w); }
    }
  }

  /** The modifiers come right after `flex`, direction before wrap, and the
      list has one token per modifier present beyond the three fixed ones. */
  lemma {:induction false} ModifierOrder(p: Properties)
    ensures |ClassTokens(p)| == 3 + (if p.flexDirection != Row then 1 else 0)
      + (if p.flexWrap != NoWrap then 1 else 0) + (if p.gap > 0 then 1 else 0)
    ensures p.flexDirection != Row ==> ClassTokens(p)[1] == DirectionClass(p.flexDirection)
    ensures p.flexWrap != NoWrap ==>
      ClassTokens(p)[if p.flexDirection != Row then 2 else 1] == WrapClass(p.flexWrap)
  {
  }

  /** The class string ignores `display` and `alignContent`. */
  lemma {:induction false} ClassStringIgnoresDisplayAndAlignContent(p: Properties, d: Display, a: AlignContent)
    ensures ClassString(p.(display := d, alignContent := a)) == ClassString(p)
  {
  }

  // ---------------------------------------------------------------------
  // HTML markup and React component

  function Lines(s: string): seq<string>
  {
    Split(s, '\n')
  }

  predicate LabelsOnOneLine(items: seq<Item>)
  {
    forall i :: 0 <= i < |items| ==> '\n' !in items[i].labelText
  }

  /** The container's fixed classes, written after the generated ones. */
  const ContainerClassList: seq<string> := ["p-6", "min-h-[400px]", "bg-gray-100", "rounded-lg"]

  /** Every child's fixed classes. */
  const ItemClassList: seq<string> := ["bg-blue-500", "text-white", "rounded-lg", "p-4",
    "min-w-[80px]", "min-h-[80px]", "flex", "items-center", "justify-center", "font-bold", "text-xl"]

  const ItemClasses := Join(ItemClassList, " ")

  lemma {:induction false} ContainerClassListAreTokens()
    ensures AllClassTokens(ContainerClassList)
  {
  }

  lemma {:induction false} ItemClassListHead()
    ensures AllClassTokens(ItemClassList[..6])
  {
  }

  lemma {:induction false} ItemClassListTail()
    ensures AllClassTokens(ItemClassList[6..])
  {
  }

  lemma {:induction false} ItemClassListAreTokens()
    ensures AllClassTokens(ItemClassList)
  {
    ItemClassListHead();
    ItemClassListTail();
    AllClassTokensAppend(ItemClassList[..6], ItemClassList[6..]);
    assert ItemClassList[..6] + ItemClassList[6..] == ItemClassList;
  }

  /** The container's class attribute: the class string, a space, the fixed classes. */
  function ContainerClasses(p: Properties): string
  {
    ClassString(p) + " " + Join(ContainerClassList, " ")
  }

  /** The container's class attribute holds the class tokens and then the
      fixed classes, and no line break. */
  lemma {:induction false} ContainerClassesSplit(p: Properties)
    ensures Split(ContainerClasses(p), ' ') == ClassTokens(p) + ContainerClassList
    ensures '\n' !in ContainerClasses(p)
  {
    ContainerClassListAreTokens();
    ClassStringOnOneLine(p);
    SplitAppend(ClassString(p), Join(ContainerClassList, " "), ' ');
    SplitJoin(ContainerClassList, ' ');
    JoinExcludes(ContainerClassList, " ", '\n');
  }

  lemma {:induction false} ItemClassesOnOneLine()
    ensures '\n' !in ItemClasses
  {
    ItemClassListAreTokens();
    JoinExcludes(ItemClassList, " ", '\n');
  }

  /** An opening `div` line: indentation, then the class attribute (`class`
      in HTML, `className` in JSX). */
  function OpenTag(indent: string, attribute: string, classes: string): string
  {
    indent + "<div " + attribute + "=\"" + classes + "\">"
  }

  lemma {:induction false} OpenTagOnOneLine(indent: string, attribute: string, classes: string)
    requires '\n' !in indent && '\n' !in attribute && '\n' !in classes
    ensures '\n' !in OpenTag(indent, attribute, classes)
  {
  }

  /** One child element: its opening line, the label on its own line, its closing line. */
  function ChildBlock(open: string, indent: string, close: string, text: string): string
  {
    Join([open, indent + text, close], "\n")
  }

  /** `items.map(item => ...)`. */
  function ChildBlocks(items: seq<Item>, open: string, indent: string, close: string): (r: seq<string>)
    ensures |r| == |items|
  {
    seq(|items|, i requires 0 <= i < |items| => ChildBlock(open, indent, close, items[i].labelText))
  }

  /** The lines of the child blocks, item after item. */
  function ItemLines(items: seq<Item>, open: string, indent: string, close: string): (r: seq<string>)
    ensures |r| == 3 * |items|
  {
    if |items| == 0 then []
    else [open, indent + items[0].labelText, close] + ItemLines(items[1..], open, indent, close)
  }

  /** Item `i` owns lines 3i, 3i+1 and 3i+2, its label on the middle one. */
  lemma {:induction false} ItemLinesAt(items: seq<Item>, open: string, indent: string, close: string, i: nat)
    requires i < |items|
    ensures ItemLines(items, open, indent, close)[3 * i] == open
    ensures ItemLines(items, open, indent, close)[3 * i + 1] == indent + items[i].labelText
    ensures ItemLines(items, open, indent, close)[3 * i + 2] == close
  {
    if i > 0 {
      ItemLinesAt(items[1..], open, indent, close, i - 1);
      assert items[1..][i - 1] == items[i];
    }
  }

  /** Item `i`'s three lines inside a framed list of lines. */
  lemma {:induction false} FramedItemLines(head: seq<string>, items: seq<Item>, open: string, indent: string,
                                           close: string, tail: seq<string>, i: nat)
    requires i < |items|
    ensures var lines := head + ItemLines(items, open, indent, close) + tail;
      |lines| == |head| + 3 * |items| + |tail|
      && lines[|head| + 3 * i] == open
      && lines[|head| + 3 * i + 1] == indent + items[i].labelText
      && lines[|head| + 3 * i + 2] == close
  {
    ItemLinesAt(items, open, indent, close, i);
  }

  /** The lines of the joined children: one empty line when there are no items. */
  function ChildLines(items: seq<Item>, open: string, indent: string, close: string): seq<string>
  {
    if |items| == 0 then [""] else ItemLines(items, open, indent, close)
  }

  lemma {:induction false} ChildBlocksLines(items: seq<Item>, open: string, indent: string, close: string)
    requires '\n' !in open && '\n' !in indent && '\n' !in close
    requires LabelsOnOneLine(items)
    ensures SplitEach(ChildBlocks(items, open, indent, close), '\n') == ItemLines(items, open, indent, close)
  {
    if |items| > 0 {
      var blocks := ChildBlocks(items, open, indent, close);
      assert LabelsOnOneLine(items[1..]) by {
        forall i | 0 <= i < |items[1..]| ensures '\n' !in items[1..][i].labelText {
          assert items[1..][i] == items[i + 1];
        }
      }
      ChildBlocksLines(items[1..], open, indent, close);
      assert blocks[1..] == ChildBlocks(items[1..], open, indent, close);
      assert '\n' !in indent + items[0].labelText;
      SplitJoin([open, indent + items[0].labelText, close], '\n');
    }
  }

  /** The lines of `items.map(...).join('\n')`: three per item, or a single
      empty line when there are no items. */
  lemma {:induction false} ChildrenLines(items: seq<Item>, open: string, indent: string, close: string)
    requires '\n' !in open && '\n' !in indent && '\n' !in close
    requires LabelsOnOneLine(items)
    ensures Lines(Join(ChildBlocks(items, open, indent, close), "\n")) == ChildLines(items, open, indent, close)
  {
    if |items| > 0 {
      SplitJoinBlocks(ChildBlocks(items, open, indent, close), '\n');
      ChildBlocksLines(items, open, indent, close);
    }
  }

  /** Lines of a three-part join whose outer parts are single lines. */
  lemma {:induction false} FramedLines(head: seq<string>, middle: string, tail: seq<string>)
    requires SingleLines(head) && SingleLines(tail)
    ensures Lines(Join(head + [middle] + tail, "\n")) == head + Lines(middle) + tail
  {
    var parts := head + [middle] + tail;
    SplitJoinBlocks(parts, '\n');
    SplitEachAppend(head + [middle], tail, '\n');
    SplitEachAppend(head, [middle], '\n');
    SplitEachNoSeparator(head, '\n');
    SplitEachNoSeparator(tail, '\n');
    assert SplitEach([middle], '\n') == Split(middle, '\n') + SplitEach([], '\n');
  }

  function HtmlContainerOpen(p: Properties): string
  {
    OpenTag("", "class", ContainerClasses(p))
  }

  const HtmlChildOpen := OpenTag("  ", "class", ItemClasses)

  lemma {:induction false} HtmlChildOpenOnOneLine()
    ensures '\n' !in HtmlChildOpen
  {
    ItemClassesOnOneLine();
    OpenTagOnOneLine("  ", "class", ItemClasses);
  }

  /** The HTML children: `items.map(...).join('\n')`. */
  function HtmlChildren(items: seq<Item>): string
  {
    Join(ChildBlocks(items, HtmlChildOpen, "    ", "  </div>"), "\n")
  }

  /** `generateHTML`: the container line, the children joined by line
      breaks, and the closing line. Whatever the labels hold, the first line
      is the container line and the last one closes it. */
  function GenerateHtml(p: Properties, items: seq<Item>): (r: string)
    ensures Lines(r) == [HtmlContainerOpen(p)] + Lines(HtmlChildren(items)) + ["</div>"]
  {
    ContainerClassesSplit(p);
    OpenTagOnOneLine("", "class", ContainerClasses(p));
    FramedLines([HtmlContainerOpen(p)], HtmlChildren(items), ["</div>"]);
    Join([HtmlContainerOpen(p)] + [HtmlChildren(items)] + ["</div>"], "\n")
  }

  lemma {:induction false} HtmlChildLines(items: seq<Item>)
    requires LabelsOnOneLine(items)
    ensures Lines(HtmlChildren(items)) == ChildLines(items, HtmlChildOpen, "    ", "  </div>")
  {
    HtmlChildOpenOnOneLine();
    ChildrenLines(items, HtmlChildOpen, "    ", "  </div>");
  }

  /** The HTML: the container line carrying the class attribute, three lines
      per item with the labels in item order, and the closing line; with no
      items, one empty line between them. */
  lemma {:induction false} HtmlLines(p: Properties, items: seq<Item>)
    requires LabelsOnOneLine(items)
    ensures Lines(GenerateHtml(p, items)) ==
      [HtmlContainerOpen(p)] + ChildLines(items, HtmlChildOpen, "    ", "  </div>") + ["</div>"]
  {
    HtmlChildLines(items);
  }

  /** The HTML has three lines per item and two more; line 3i+2 is item i's
      label, indented by four spaces. */
  lemma {:induction false} HtmlLabelLine(p: Properties, items: seq<Item>, i: nat)
    requires LabelsOnOneLine(items) && i < |items|
    ensures var lines := Lines(GenerateHtml(p, items));
      |lines| == 3 * |items| + 2
      && lines[3 * i + 1] == HtmlChildOpen
      && lines[3 * i + 2] == "    " + items[i].labelText
      && lines[3 * i + 3] == "  </div>"
  {
    HtmlLines(p, items);
    FramedItemLines([HtmlContainerOpen(p)], items, HtmlChildOpen, "    ", "  </div>", ["</div>"], i);
  }

  /** The leading comment naming the layout. */
  function CommentLine(layoutName: string): string
  {
    "// " + layoutName + " Layout Component"
  }

  /** The component header: always the component `FlexboxLayout`. */
  const JsxHeader: seq<string> := ["export const FlexboxLayout = () => {", "  return ("]

  const JsxFooter: seq<string> := ["    </div>", "  );", "};"]

  function JsxContainerOpen(p: Properties): string
  {
    OpenTag("    ", "className", ContainerClasses(p))
  }

  /** The lines between the comment and the children: header, container line. */
  function JsxBody(p: Properties): seq<string>
  {
    JsxHeader + [JsxContainerOpen(p)]
  }

  /** The lines before the children: comment, header, container line. */
  function JsxHead(p: Properties, layoutName: string): seq<string>
  {
    [CommentLine(layoutName)] + JsxBody(p)
  }

  const JsxChildOpen := OpenTag("      ", "className", ItemClasses)

  lemma {:induction false} JsxChildOpenOnOneLine()
    ensures '\n' !in JsxChildOpen
  {
    ItemClassesOnOneLine();
    OpenTagOnOneLine("      ", "className", ItemClasses);
  }

  /** The JSX children: `items.map(...).join('\n')`. */
  function JsxChildren(items: seq<Item>): string
  {
    Join(ChildBlocks(items, JsxChildOpen, "        ", "      </div>"), "\n")
  }

  lemma {:induction false} JsxFixedLinesOnOneLine()
    ensures SingleLines(JsxHeader) && SingleLines(JsxFooter)
  {
  }

  lemma {:induction false} JsxBodyOnOneLine(p: Properties)
    ensures SingleLines(JsxBody(p)) && |JsxBody(p)| == 3
  {
    ContainerClassesSplit(p);
    OpenTagOnOneLine("    ", "className", ContainerClasses(p));
    JsxFixedLinesOnOneLine();
    SingleLinesAppend(JsxHeader, [JsxContainerOpen(p)]);
  }

  /** Lines of a join that starts with a free-form part and then a framed one. */
  lemma {:induction false} FirstAndFramedLines(first: string, head: seq<string>, middle: string, tail: seq<string>)
    requires SingleLines(head) && SingleLines(tail)
    ensures Lines(Join([first] + head + [middle] + tail, "\n"))
         == Lines(first) + head + Lines(middle) + tail
  {
    assert [first] + head + [middle] + tail == [first] + (head + [middle] + tail);
    SplitJoinFirst(first, head + [middle] + tail, '\n');
    FramedLines(head, middle, tail);
  }

  /** `generateReactJSX`: the template literal's lines. Whatever the layout
      name and the labels hold, the name only reaches the leading comment,
      and the rest is the fixed header, the container line, the children and
      the fixed footer. */
  function GenerateReactJsx(p: Properties, items: seq<Item>, layoutName: string): (r: string)
    ensures Lines(r) == Lines(CommentLine(layoutName)) + JsxBody(p) + Lines(JsxChildren(items)) + JsxFooter
  {
    JsxBodyOnOneLine(p);
    JsxFixedLinesOnOneLine();
    FirstAndFramedLines(CommentLine(layoutName), JsxBody(p), JsxChildren(items), JsxFooter);
    Join(JsxHead(p, layoutName) + [JsxChildren(items)] + JsxFooter, "\n")
  }

  lemma {:induction false} JsxHeadOnOneLine(p: Properties, layoutName: string)
    requires '\n' !in layoutName
    ensures SingleLines(JsxHead(p, layoutName)) && |JsxHead(p, layoutName)| == 4
  {
    JsxBodyOnOneLine(p);
    SingleLinesAppend([CommentLine(layoutName)], JsxBody(p));
  }

  lemma {:induction false} JsxChildLines(items: seq<Item>)
    requires LabelsOnOneLine(items)
    ensures Lines(JsxChildren(items)) == ChildLines(items, JsxChildOpen, "        ", "      </div>")
  {
    JsxChildOpenOnOneLine();
    ChildrenLines(items, JsxChildOpen, "        ", "      </div>");
  }

  /** The component source: the comment naming the layout, the fixed header,
      the container line carrying the class attribute, three lines per item
      with the labels in order, and the fixed closing lines. */
  lemma {:induction false} JsxLines(p: Properties, items: seq<Item>, layoutName: string)
    requires LabelsOnOneLine(items) && '\n' !in layoutName
    ensures Lines(GenerateReactJsx(p, items, layoutName)) ==
      JsxHead(p, layoutName) + ChildLines(items, JsxChildOpen, "        ", "      </div>") + JsxFooter
  {
    JsxHeadOnOneLine(p, layoutName);
    assert '\n' !in JsxHead(p, layoutName)[0];
    SplitNoSeparator(CommentLine(layoutName), '\n');
    JsxChildLines(items);
  }

  /** The component source has three lines per item and seven more; line
      3i+5 is item i's label, indented by eight spaces. */
  lemma {:induction false} JsxLabelLine(p: Properties, items: seq<Item>, layoutName: string, i: nat)
    requires LabelsOnOneLine(items) && '\n' !in layoutName && i < |items|
    ensures var lines := Lines(GenerateReactJsx(p, items, layoutName));
      |lines| == 3 * |items| + 7
      && lines[3 * i + 4] == JsxChildOpen
      && lines[3 * i + 5] == "        " + items[i].labelText
      && lines[3 * i + 6] == "      </div>"
  {
    JsxLines(p, items, layoutName);
    JsxHeadOnOneLine(p, layoutName);
    FramedItemLines(JsxHead(p, layoutName), items, JsxChildOpen, "        ", "      </div>", JsxFooter, i);
  }

  /** Lists that differ only in a prefix agree after it. */
  lemma {:induction false} SameAfterPrefix(x: seq<string>, y: seq<string>, a: seq<string>, b: seq<string>,
                                           c: seq<string>)
    ensures (x + a + b + c)[..|x|] == x
    ensures (x + a + b + c)[|x|..] == (y + a + b + c)[|y|..]
  {
    assert (x + a + b + c)[|x|..] == a + b + c;
    assert (y + a + b + c)[|y|..] == a + b + c;
  }

  /** The layout name only reaches the leading comment: below the comment's
      lines, the component source is the same whatever the name and whatever
      the labels hold. */
  lemma {:induction false} JsxNameOnlyInComment(p: Properties, items: seq<Item>, name1: string, name2: string)
    ensures var c1 := Lines(CommentLine(name1));
      var c2 := Lines(CommentLine(name2));
      Lines(GenerateReactJsx(p, items, name1))[..|c1|] == c1
      && Lines(GenerateReactJsx(p, items, name1))[|c1|..] == Lines(GenerateReactJsx(p, items, name2))[|c2|..]
  {
    SameAfterPrefix(Lines(CommentLine(name1)), Lines(CommentLine(name2)),
                    JsxBody(p), Lines(JsxChildren(items)), JsxFooter);
  }

  // ---------------------------------------------------------------------
  // Stylesheet

  /** `px` after the gap, nothing after a keyword. */
  function CssUnit(f: Field): string
  {
    if f == GapField then "px" else ""
  }

  /** The declaration of one field: its CSS name and its value. */
  function CssDeclaration(p: Properties, f: Field): string
  {
    "  " + f.CssName() + ": " + Get(p, f).ToString() + (CssUnit(f) + ";")
  }

  /** The container's fixed declarations after the seven fields. */
  const ContainerDeclarations: seq<string> :=
    ["  padding: 24px;", "  min-height: 400px;", "  background-color: #f3f4f6;", "  border-radius: 8px;"]

  /** The item rule's declarations. */
  const ItemDeclarations: seq<string> := [
    "  background-color: #3b82f6;",
    "  color: white;",
    "  border-radius: 8px;",
    "  padding: 16px;",
    "  min-width: 80px;",
    "  min-height: 80px;",
    "  display: flex;",
    "  align-items: center;",
    "  justify-content: center;",
    "  font-weight: bold;",
    "  font-size: 1.25rem;"]

  /** `generateCSS`'s template literal, line by line: the container rule
      with the seven fields in key order, then the fixed item rule. */
  function StylesheetLines(p: Properties): seq<string>
  {
    [".flexbox-container {"]
    + seq(|Fields|, i requires 0 <= i < |Fields| => CssDeclaration(p, Fields[i]))
    + ContainerDeclarations
    + ["}", "", ".flexbox-item {"]
    + ItemDeclarations
    + ["}"]
  }

  /** `generateCSS`: it reads the property record only, and no value brings
      in a line break, so its lines are exactly the template's lines. */
  function GenerateCss(p: Properties): (r: string)
    ensures Lines(r) == StylesheetLines(p)
  {
    StylesheetOnOneLine(p);
    SplitJoin(StylesheetLines(p), '\n');
    Join(StylesheetLines(p), "\n")
  }

  lemma {:induction false} CssNameOnOneLine(f: Field)
    ensures '\n' !in f.CssName()
  {
  }

  lemma {:induction false} CssDeclarationOnOneLine(p: Properties, f: Field)
    ensures '\n' !in CssDeclaration(p, f)
  {
    CssNameOnOneLine(f);
    ValueHasNoLineBreak(Get(p, f));
  }

  lemma {:induction false} ItemDeclarationsHead()
    ensures SingleLines(ItemDeclarations[..6])
  {
  }

  lemma {:induction false} ItemDeclarationsTail()
    ensures SingleLines(ItemDeclarations[6..])
  {
  }

  lemma {:induction false} FixedCssOnOneLine()
    ensures SingleLines(ContainerDeclarations)
    ensures SingleLines(["}", "", ".flexbox-item {"] + ItemDeclarations + ["}"])
  {
    ItemDeclarationsHead();
    ItemDeclarationsTail();
    SingleLinesAppend(ItemDeclarations[..6], ItemDeclarations[6..]);
    assert ItemDeclarations[..6] + ItemDeclarations[6..] == ItemDeclarations;
    SingleLinesAppend(["}", "", ".flexbox-item {"], ItemDeclarations);
    SingleLinesAppend(["}", "", ".flexbox-item {"] + ItemDeclarations, ["}"]);
  }

  lemma {:induction false} StylesheetOnOneLine(p: Properties)
    ensures SingleLines(StylesheetLines(p))
  {
    var decls := seq(|Fields|, i requires 0 <= i < |Fields| => CssDeclaration(p, Fields[i]));
    assert SingleLines(decls) by {
      forall i | 0 <= i < |decls| ensures '\n' !in decls[i] {
        CssDeclarationOnOneLine(p, Fields[i]);
      }
    }
    FixedCssOnOneLine();
    SingleLinesAppend([".flexbox-container {"], decls);
    SingleLinesAppend([".flexbox-container {"] + decls, ContainerDeclarations);
    SingleLinesAppend([".flexbox-container {"] + decls + ContainerDeclarations,
                      ["}", "", ".flexbox-item {"] + ItemDeclarations + ["}"]);
    assert StylesheetLines(p) == [".flexbox-container {"] + decls + ContainerDeclarations
                                 + (["}", "", ".flexbox-item {"] + ItemDeclarations + ["}"]);
  }

  /** The stylesheet has 27 lines; right after the container selector come the
      seven fields, each as `name: value;` in key order. */
  lemma {:induction false} CssDeclaresEveryField(p: Properties)
    ensures |Lines(GenerateCss(p))| == 27
    ensures Lines(GenerateCss(p))[0] == ".flexbox-container {"
    ensures forall i :: 0 <= i < |Fields| ==> Lines(GenerateCss(p))[1 + i] == CssDeclaration(p, Fields[i])
    ensures Lines(GenerateCss(p))[7] == "  gap: " + NatToString(p.gap) + "px;"
  {
    assert Lines(GenerateCss(p))[7] == CssDeclaration(p, Fields[6]);
  }

  /** Strip a known prefix and suffix from equal texts. */
  lemma {:induction false} MiddlesEqual(pre: string, a: string, b: string, post: string)
    requires pre + a + post == pre + b + post
    ensures a == b
  {
    assert a == (pre + a + post)[|pre|..|pre| + |a|];
    assert b == (pre + b + post)[|pre|..|pre| + |b|];
  }

  /** Equal declarations of one field declare equal values. */
  lemma {:induction false} CssDeclarationInjective(p: Properties, q: Properties, f: Field)
    requires CssDeclaration(p, f) == CssDeclaration(q, f)
    ensures Get(p, f) == Get(q, f)
  {
    MiddlesEqual("  " + f.CssName() + ": ", Get(p, f).ToString(), Get(q, f).ToString(), CssUnit(f) + ";");
  }

  /** The stylesheet loses nothing: records with equal stylesheets are equal. */
  lemma {:induction false} CssDeterminesProperties(p: Properties, q: Properties)
    requires GenerateCss(p) == GenerateCss(q)
    ensures p == q
  {
    CssDeclaresEveryField(p);
    CssDeclaresEveryField(q);
    forall k: Field ensures Get(p, k) == Get(q, k) {
      assert Lines(GenerateCss(p))[1 + k.Index()] == CssDeclaration(p, k);
      CssDeclarationInjective(p, q, k);
    }
    Extensionality(p, q);
  }

  // ---------------------------------------------------------------------
  // Property dump

  /** One `key: value` entry. */
  function Entry(key: string, value: string): string
  {
    key + ": " + value
  }

  /** `Object.entries(properties).map(([key, value]) => `${key}: ${value}`)`,
      the entries in the record's key order. */
  function DumpLines(p: Properties): (r: seq<string>)
    ensures |r| == |Fields|
  {
    seq(|Fields|, i requires 0 <= i < |Fields| => Entry(Fields[i].Name(), Get(p, Fields[i]).ToString()))
  }

  /** The entries joined by line breaks: exactly seven lines, one per key in
      key order, the last the gap as a bare number. */
  function PropertiesDump(p: Properties): (r: string)
    ensures Lines(r) == DumpLines(p)
    ensures Lines(r)[|Fields| - 1] == "gap: " + NatToString(p.gap)
  {
    DumpLinesOnOneLine(p);
    SplitJoin(DumpLines(p), '\n');
    Join(DumpLines(p), "\n")
  }

  /** Reads one entry of the given key. */
  function ParseEntry(line: string, key: Field): (r: Option<FieldValue>)
    ensures r.Some? ==> r.value.FieldOf() == key
  {
    var text :- After(line, key.Name() + ": ");
    FieldValue.Parse(key, text)
  }

  /** Reads one entry per line, the keys in the given order. */
  function ParseEntries(lines: seq<string>, keys: seq<Field>): Option<seq<FieldValue>>
    requires |lines| == |keys|
  {
    if |lines| == 0 then Some([])
    else
      var v :- ParseEntry(lines[0], keys[0]);
      var vs :- ParseEntries(lines[1..], keys[1..]);
      Some([v] + vs)
  }

  /** Reads a dump back: one `key: value` line per key, in key order. */
  function ParseDump(s: string): Option<Properties>
  {
    var lines := Lines(s);
    if |lines| != |Fields| then None
    else
      var vs :- ParseEntries(lines, Fields);
      FromValues(vs)
  }

  lemma {:induction false} FieldNameOnOneLine(f: Field)
    ensures '\n' !in f.Name()
  {
  }

  lemma {:induction false} DumpLinesOnOneLine(p: Properties)
    ensures SingleLines(DumpLines(p))
  {
    var L := DumpLines(p);
    forall i | 0 <= i < |L| ensures '\n' !in L[i] {
      FieldNameOnOneLine(Fields[i]);
      ValueHasNoLineBreak(Get(p, Fields[i]));
    }
  }

  /** Entries written for values of the given keys are read back as those values. */
  lemma {:induction false} ParseEntriesOfEntries(lines: seq<string>, keys: seq<Field>, vs: seq<FieldValue>)
    requires |lines| == |keys| == |vs|
    requires forall i :: 0 <= i < |vs| ==>
      vs[i].FieldOf() == keys[i] && lines[i] == Entry(keys[i].Name(), vs[i].ToString())
    ensures ParseEntries(lines, keys) == Some(vs)
  {
    if |lines| > 0 {
      AfterPrefix(keys[0].Name() + ": ", vs[0].ToString());
      ParseEntriesOfEntries(lines[1..], keys[1..], vs[1..]);
      assert vs == [vs[0]] + vs[1..];
    }
  }

  /** The dump ends with the gap's last digit: no trailing line break. */
  lemma {:induction false} DumpHasNoTrailingBreak(p: Properties)
    ensures |PropertiesDump(p)| >= 1 && IsDigit(PropertiesDump(p)[|PropertiesDump(p)| - 1])
  {
    JoinEndsWithLast(DumpLines(p), "\n");
    var last := DumpLines(p)[6];
    var d := PropertiesDump(p);
    assert d[|d| - 1] == last[|last| - 1];
  }

  /** Reading a dump back gives the record it was made from. */
  lemma {:induction false} DumpRoundTrip(p: Properties)
    ensures ParseDump(PropertiesDump(p)) == Some(p)
  {
    ParseEntriesOfEntries(DumpLines(p), Fields, Values(p));
    FromValuesOfValues(p);
  }

  // ---------------------------------------------------------------------
  // Worked examples

  /** Direction classes use the keyword as is: `flex-column`, not `flex-col`. */
  lemma {:induction false} DirectionExamples()
    ensures DirectionClass(Column) == "flex-column"
    ensures DirectionClass(ColumnReverse) == "flex-column-reverse"
  {
    assert Column.ToString() == "column" && ColumnReverse.ToString() == "column-reverse";
  }

  lemma {:induction false} WrapExamples()
    ensures WrapClass(Wrap) == "flex-wrap"
    ensures WrapClass(WrapReverse) == "flex-wrap-reverse"
  {
    assert Wrap.ToString() == "wrap" && WrapReverse.ToString() == "wrap-reverse";
  }

  /** The gap step rounds halves up: 1 px gives `gap-0`, 10 px `gap-3`,
      50 px `gap-13`. */
  lemma {:induction false} GapExamples()
    ensures GapClass(1) == "gap-0" && GapClass(10) == "gap-3" && GapClass(50) == "gap-13"
  {
    assert GapStep(1) == 0 && NatToString(0) == "0";
    assert GapStep(10) == 3 && NatToString(3) == "3";
    assert GapStep(50) == 13 && NatToString(1) == "1" && NatToString(13) == "13";
  }

  /** The default record: no modifiers, `justify-start`, `items-stretch` and
      `gap-3` for 10 pixels. */
  lemma {:induction false} DefaultClassTokens()
    ensures ClassTokens(Default) == ["flex", "justify-start", "items-stretch", "gap-3"]
  {
    GapExamples();
    assert GapPart(Default) == ["gap-3"];
  }

  /** The default record centred on the main axis: the tokens of
      `flex justify-center items-stretch gap-3`. */
  lemma {:induction false} CenteredClassTokens()
    ensures ClassTokens(Default.(justifyContent := JustifyContent.Center))
      == ["flex", "justify-center", "items-stretch", "gap-3"]
  {
    GapExamples();
    assert GapPart(Default.(justifyContent := JustifyContent.Center)) == ["gap-3"];
  }

  /** A reversed wrapped column: both modifiers, direction first. */
  lemma {:induction false} ColumnReverseTokens()
    ensures ClassTokens(Properties(Block, ColumnReverse, Wrap, JustifyContent.SpaceEvenly,
                                   AlignItems.Baseline, AlignContent.Center, 1))
      == ["flex", "flex-column-reverse", "flex-wrap", "justify-evenly", "items-baseline", "gap-0"]
  {
    DirectionExamples();
    WrapExamples();
    GapExamples();
  }
}
