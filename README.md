# Flexbox playground: code generator and control panel, in Dafny

The flexbox playground edits one record of flexbox container properties:
- `display`;
- `flexDirection`;
- `flexWrap`;
- `justifyContent`;
- `alignItems`;
- `alignContent`;
- `gap`, in pixels.

It also edits a list of placeholder items, each an id and a label.

The export dialog turns the record, the items and a layout name into five texts:
- a Tailwind class string;
- HTML markup;
- a stylesheet;
- a React component;
- a `key: value` dump of the record.

The control panel changes the record through the single `updateProperty` path. The controls that call it are a switch for `display`, one select per keyword field, and a 0–50 slider for `gap`.

This project models those two pieces and proves what their outputs contain.

- `text.dfy` (module `Text`) holds JavaScript's `join` and one-character `split`, and the decimal rendering of a whole number with its parser. It also holds the round trips between them. The generated texts are reasoned about through their lines: `Split(text, '\n')`.
- `layout.dfy` (module `Layout`) holds the property record with one datatype per keyword field. Each datatype's `ToString` gives a CSS keyword. Most come from the CSS Flexible Box Layout Module Level 1:
  - flex-direction, section 5.1;
  - flex-wrap, section 5.2;
  - justify-content, section 8.2;
  - align-items, section 8.3;
  - align-content, section 8.4.

  Two do not. `space-evenly` is added to justify-content by the CSS Box Alignment Module Level 3. The display value `block` comes from the CSS Display Module Level 3.

  Each `Parse` is the inverse of `ToString`. The module also holds the items, the playground's starting record (`Default`), the record's keys in declaration order, and typed access to one key.
- `codegen.dfy` (module `CodeGen`) holds the five generators of the export dialog and their properties.
  - `generateTailwindClasses` pushes onto an array and is therefore a method. It is proved equal to the function `ClassString`, which the other generators use.
  - The HTML, stylesheet, component and dump are functions that write out the template literals line by line.
  - The fixed class lists and declarations are constants.
- `controls.dfy` (module `Controls`) holds `updateProperty`, the display switch, the control events including the slider's value range, and runs of control events.

Three things about the code as written are worth knowing:
- The direction modifier is `flex-` followed by the CSS keyword, so a column gives `flex-column` and not Tailwind's `flex-col`.
- The gap class is `gap-` followed by `Math.round(gap / 4)`. For a whole number of pixels this is `(gap + 2) / 4`. A 1-pixel gap therefore gives `gap-0`, while the stylesheet says `gap: 1px`.
- The class string always starts with `flex`, even when `display` is `block`, and it ignores `alignContent`.

## Model

| member | source | states |
|---|---|---|
| Layout.Display.ToString | src/types/layout.ts:2 | the keyword is lower-case letters and hyphens, and `Display.Parse` reads it back |
| Layout.FlexDirection.ToString | src/types/layout.ts:3 | each direction's keyword is read back by `Parse` |
| Layout.FlexWrap.ToString | src/types/layout.ts:4 | each wrap mode's keyword is read back by `Parse` |
| Layout.JustifyContent.ToString | src/types/layout.ts:5 | each justification's keyword is read back by `Parse` |
| Layout.AlignItems.ToString | src/types/layout.ts:6 | each alignment's keyword is read back by `Parse` |
| Layout.AlignContent.ToString | src/types/layout.ts:7 | each line alignment's keyword is read back by `Parse` |
| Layout.FieldValue.ToString | src/types/layout.ts:1-9 | the text of any value, a keyword or the gap in decimal, is read back as that value of that key |
| Layout.Get | src/types/layout.ts:1-9 | `properties[key]` has the type of `key` |
| Layout.Field.Index | src/types/layout.ts:1-9 | every key has a position in declaration order |
| Layout.FromValues | src/types/layout.ts:1-9 | seven values build a record exactly when each has its key's type, and the record's values in key order are those values |
| Layout.FromValuesOfValues | src/types/layout.ts:1-9 | a record is rebuilt from its values in key order |
| Layout.Extensionality | src/types/layout.ts:1-9 | records that agree on every key are equal |
| CodeGen.DirectionClass | src/components/CodeModal.tsx:23-25 | the direction modifier is one token, `flex-` followed by the direction's keyword verbatim |
| CodeGen.WrapClass | src/components/CodeModal.tsx:27-29 | the wrap modifier is one token, `flex-` followed by the wrap keyword verbatim |
| CodeGen.JustifyClass | src/components/CodeModal.tsx:31-39 | `justifyMap` gives one `justify-*` token per justification and has an inverse, so it is one-to-one |
| CodeGen.AlignClass | src/components/CodeModal.tsx:41-48 | `alignMap` gives one `items-*` token per alignment and has an inverse, so it is one-to-one |
| CodeGen.GapStep | src/components/CodeModal.tsx:50-52 | the integer step `(gap + 2) / 4` equals `Math.round(gap / 4)`, the nearest integer with halves rounded up |
| CodeGen.GapClass | src/components/CodeModal.tsx:50-52 | the gap class is one token starting with `gap-` |
| CodeGen.ClassTokens | src/components/CodeModal.tsx:21-52 | the class list has 3 to 6 tokens and starts with `flex` |
| CodeGen.GenerateTailwindClasses | src/components/CodeModal.tsx:20-55 | the pushes build exactly the class list; the joined string splits on spaces back into that list and starts with `flex` |
| CodeGen.ClassTokensAreTokens | src/components/CodeModal.tsx:21-52 | every pushed class is non-empty and holds no space or line break |
| CodeGen.ClassString | src/components/CodeModal.tsx:54 | the class string is the tokens joined by spaces: splitting it on spaces gives every token back, in order |
| CodeGen.ClassStringStartsWithFlex | src/components/CodeModal.tsx:21 | the class string starts with `flex`, whatever `display` is |
| CodeGen.CountsByPart | src/components/CodeModal.tsx:21-52 | the number of tokens with a given non-`f` prefix is the sum over the justify, align and gap classes |
| CodeGen.ExactlyOneJustifyToken | src/components/CodeModal.tsx:31-39 | exactly one token starts with `justify-`, and it is `justifyMap[justifyContent]` |
| CodeGen.ExactlyOneItemsToken | src/components/CodeModal.tsx:41-48 | exactly one token starts with `items-`, and it is `alignMap[alignItems]` |
| CodeGen.GapToken | src/components/CodeModal.tsx:50-52 | a `gap-` token exists iff the gap is positive; it is then last and carries `Math.round(gap / 4)` |
| CodeGen.ClassMapsInjective | src/components/CodeModal.tsx:31-48 | different justifications give different classes, and so do different alignments |
| CodeGen.DirectionClassIsNotWrapClass | src/components/CodeModal.tsx:23-29 | no direction modifier equals a wrap modifier |
| CodeGen.DirectionTokenPresent | src/components/CodeModal.tsx:23-25 | the `flex-<direction>` token is present iff it is the record's direction and that is not `row` |
| CodeGen.WrapTokenPresent | src/components/CodeModal.tsx:27-29 | the `flex-<wrap>` token is present iff it is the record's wrap mode and that is not `nowrap` |
| CodeGen.ModifierOrder | src/components/CodeModal.tsx:21-52 | the token count is 3 plus one per present modifier; the direction token comes right after `flex`, then the wrap token |
| CodeGen.ClassStringIgnoresDisplayAndAlignContent | src/components/CodeModal.tsx:20-55 | changing `display` or `alignContent` leaves the class string unchanged |
| CodeGen.ContainerClassesSplit | src/components/CodeModal.tsx:59 | the container's class attribute is the class tokens followed by `p-6 min-h-[400px] bg-gray-100 rounded-lg`, on one line |
| CodeGen.ItemLinesAt | src/components/CodeModal.tsx:60-62 | item i owns three consecutive lines: opening tag, indented label, closing tag |
| CodeGen.ChildBlocksLines | src/components/CodeModal.tsx:60-62 | the lines of the mapped child blocks are three per item, in item order |
| CodeGen.ChildrenLines | src/components/CodeModal.tsx:60-62 | the joined children split into three lines per item, or one empty line when there are no items |
| CodeGen.GenerateHtml | src/components/CodeModal.tsx:57-64 | whatever the labels hold, the HTML's lines are the container line, the lines of the joined children and `</div>` |
| CodeGen.HtmlLines | src/components/CodeModal.tsx:57-64 | the HTML's lines are the container line, the children's lines and `</div>` |
| CodeGen.HtmlLabelLine | src/components/CodeModal.tsx:60-62 | the HTML has 3n+2 lines, and line 3i+2 is item i's label, between its opening and closing tags |
| CodeGen.GenerateReactJsx | src/components/CodeModal.tsx:96-107 | whatever the name and labels hold, the component's lines are the comment's lines, the fixed `FlexboxLayout` header, the container line, the lines of the joined children and the fixed footer |
| CodeGen.JsxLines | src/components/CodeModal.tsx:96-107 | the component's lines are the comment, the fixed `FlexboxLayout` header, the container line, the children's lines and the fixed footer |
| CodeGen.JsxLabelLine | src/components/CodeModal.tsx:101-103 | the component has 3n+7 lines, and line 3i+5 is item i's label |
| CodeGen.JsxNameOnlyInComment | src/components/CodeModal.tsx:97-98 | the component starts with the lines of the comment naming the layout, and everything after them is the same whatever the layout name |
| CodeGen.GenerateCss | src/components/CodeModal.tsx:66-94 | the stylesheet's lines are exactly the template's lines: no value brings in a line break |
| CodeGen.CssDeclaresEveryField | src/components/CodeModal.tsx:67-74 | the stylesheet has 27 lines, and lines 1 to 7 declare the seven fields in key order, the gap with `px` |
| CodeGen.CssDeclarationInjective | src/components/CodeModal.tsx:68-74 | equal declarations of a field declare equal values |
| CodeGen.CssDeterminesProperties | src/components/CodeModal.tsx:66-94 | records with the same stylesheet are the same record |
| CodeGen.PropertiesDump | src/components/CodeModal.tsx:194 | the dump is exactly seven `key: value` lines in key order, the last `gap: ` and the bare number |
| CodeGen.ParseEntriesOfEntries | src/components/CodeModal.tsx:194 | entries written for values of given keys are read back as those values |
| CodeGen.DumpHasNoTrailingBreak | src/components/CodeModal.tsx:194 | the dump ends with a digit of the gap, not with a line break |
| CodeGen.DumpRoundTrip | src/components/CodeModal.tsx:194 | reading the dump back gives the record it was written from |
| CodeGen.DirectionExamples | src/components/CodeModal.tsx:24 | a column gives `flex-column` and a reversed column `flex-column-reverse` |
| CodeGen.WrapExamples | src/components/CodeModal.tsx:28 | wrapping gives `flex-wrap`, reversed wrapping `flex-wrap-reverse` |
| CodeGen.GapExamples | src/components/CodeModal.tsx:51 | 1 px gives `gap-0`, 10 px `gap-3`, 50 px `gap-13` |
| CodeGen.DefaultClassTokens | src/components/FlexboxPlayground.tsx:14-22 | the starting record gives `flex justify-start items-stretch gap-3` |
| CodeGen.CenteredClassTokens | src/components/CodeModal.tsx:20-55 | the starting record centred gives `flex justify-center items-stretch gap-3` |
| CodeGen.ColumnReverseTokens | src/components/CodeModal.tsx:20-55 | a reversed wrapped column gives both modifiers, direction first |
| Controls.UpdateProperty | src/components/ControlPanel.tsx:13-18 | the new record has `value` at `key` and every other key unchanged |
| Controls.UpdateIdempotent | src/components/ControlPanel.tsx:17 | applying the same update twice equals applying it once |
| Controls.UpdateOverwrites | src/components/ControlPanel.tsx:17 | a later update of a key replaces an earlier one |
| Controls.UpdateToCurrentValue | src/components/ControlPanel.tsx:17 | setting a key to its current value returns an equal record |
| Controls.UpdatesCommute | src/components/ControlPanel.tsx:17 | updates of two different keys commute |
| Controls.SwitchChecked | src/components/ControlPanel.tsx:35 | the state the switch shows, written back through the switch, is the current display |
| Controls.DisplayOfSwitch | src/components/ControlPanel.tsx:36 | on gives `flex`, off gives `block` |
| Controls.SwitchRoundTrip | src/components/ControlPanel.tsx:35-36 | reading the switch and writing its state back leaves the record unchanged |
| Controls.SwitchShowsLastSetting | src/components/ControlPanel.tsx:35-36 | after the switch is set, it shows the state it was set to |
| Controls.EventValue | src/components/ControlPanel.tsx:36-152 | each control passes a value of the key it is bound to |
| Controls.HandleEvent | src/components/ControlPanel.tsx:36-152 | one control change sets that control's key and leaves every other key unchanged |
| Controls.ApplyEvents | src/components/ControlPanel.tsx:13-18 | after a run of changes, the key of the latest change holds that change's value |
| Controls.ApplyEventsAppend | src/components/ControlPanel.tsx:13-18 | two runs of changes in a row act as the second applied to the result of the first |
| Controls.HandleEventKeepsGapInRange | src/components/ControlPanel.tsx:146-152 | a control change keeps the gap within the slider's 0 to 50 |
| Controls.ApplyEventsKeepsGapInRange | src/components/ControlPanel.tsx:146-152 | any run of control changes keeps the gap within 0 to 50 |
| Controls.GapStaysInSliderRange | src/components/ControlPanel.tsx:147-152 | from the starting gap of 10, the gap stays within 0 to 50 whatever the user does |
| Controls.UntouchedKeyKeepsValue | src/components/ControlPanel.tsx:13-18 | a run of changes none of which targets a key leaves that key's value as it was |
| Controls.LastChangeDecides | src/components/ControlPanel.tsx:13-18 | the last change to a key decides its value, whatever changes to other keys follow |

## Left out

- The dialog, tabs, buttons, selects, slider and switch rendering, and the React state hooks. The model takes a record, items and a name as inputs and gives texts or a new record as results. The callback `onChange` is the function's result.
- Copying to the clipboard, including the two-second "Copied!" acknowledgement and the logged error. These are browser I/O and timing.
- Adding and removing items and choosing a preset. The source passes these in as callbacks without showing their code, so there is nothing to model them against.
- The playground's `containerStyle` and its "Current CSS" panel. These apply the record to the page, where the browser performs the layout. The starting record is kept as `Layout.Default`.
- The item controls' button conditions and colour arithmetic, the gallery previews and the page header and footer. These are presentation only.
- `customStyles` on items. The generator never reads it.
- Floating point. `gap` is a whole number of pixels (`nat`), which is what the slider produces. `Math.round(gap / 4)` is computed in integers and proved equal to the rounding of the real quotient. Negative or fractional gaps are not modelled.
- The dump's key order is taken to be declaration order. `Object.entries` lists a record's own keys in insertion order. In the source shown, records come only from the starting record (src/components/FlexboxPlayground.tsx:14-22) and the spread at src/components/ControlPanel.tsx:17, and both keep declaration order. The export dialog's caller and the preset records are not part of this model. A record cloned from a preset written in another key order would be dumped in that order, and the model does not capture that.
- CodeGen.HtmlLines: requires that labels hold no line break. A label with a line break would spread over several lines, and the three-lines-per-item count would not hold.
- CodeGen.HtmlLabelLine: requires that labels hold no line break. A label with a line break would spread over several lines, and the three-lines-per-item count would not hold.
- CodeGen.JsxLines: requires that labels and the layout name hold no line break. A label with a line break would spread over several lines, and the three-lines-per-item count would not hold.
- CodeGen.JsxLabelLine: requires that labels and the layout name hold no line break. A label with a line break would spread over several lines, and the three-lines-per-item count would not hold.
- The example lemmas state the worked class strings at token level. CodeGen.ClassString relates them to the joined string.
- Character escaping is not modelled: the generators insert labels and the layout name verbatim, and so does the model.
