/**
  The control panel: the single update path for the property record, and
  the controls that feed it (the display switch, one select per keyword
  field, and the gap slider). Each control hands a new record to the
  playground; nothing is updated in place.
 */
module Controls {
  import opened Layout

  /** `updateProperty(key, value)`: `{ ...properties, [key]: value }`. The
      value has the key's type, as the generic signature demands. */
  function UpdateProperty(p: Properties, key: Field, value: FieldValue): (r: Properties)
    requires value.FieldOf() == key
    ensures Get(r, key) == value
    ensures forall k: Field :: k != key ==> Get(r, k) == Get(p, k)
  {
    match value
    case DisplayValue(v) => p.(display := v)
    case FlexDirectionValue(v) => p.(flexDirection := v)
    case FlexWrapValue(v) => p.(flexWrap := v)
    case JustifyContentValue(v) => p.(justifyContent := v)
    case AlignItemsValue(v) => p.(alignItems := v)
    case AlignContentValue(v) => p.(alignContent := v)
    case GapValue(n) => p.(gap := n)
  }

  /** Applying the same update twice is applying it once. */
  lemma {:induction false} UpdateIdempotent(p: Properties, key: Field, value: FieldValue)
    requires value.FieldOf() == key
    ensures UpdateProperty(UpdateProperty(p, key, value), key, value) == UpdateProperty(p, key, value)
  {
    var once := UpdateProperty(p, key, value);
    var twice := UpdateProperty(once, key, value);
    forall k: Field ensures Get(twice, k) == Get(once, k) {
    }
    Extensionality(twice, once);
  }

  /** A later update of the same key replaces an earlier one. */
  lemma {:induction false} UpdateOverwrites(p: Properties, key: Field, v1: FieldValue, v2: FieldValue)
    requires v1.FieldOf() == key && v2.FieldOf() == key
    ensures UpdateProperty(UpdateProperty(p, key, v1), key, v2) == UpdateProperty(p, key, v2)
  {
    var a := UpdateProperty(UpdateProperty(p, key, v1), key, v2);
    var b := UpdateProperty(p, key, v2);
    forall k: Field ensures Get(a, k) == Get(b, k) {
    }
    Extensionality(a, b);
  }

  /** Setting a key to the value it already has gives back an equal record. */
  lemma {:induction false} UpdateToCurrentValue(p: Properties, key: Field)
    ensures UpdateProperty(p, key, Get(p, key)) == p
  {
    var r := UpdateProperty(p, key, Get(p, key));
    forall k: Field ensures Get(r, k) == Get(p, k) {
    }
    Extensionality(r, p);
  }

  /** Updates of two different keys commute. */
  lemma {:induction false} UpdatesCommute(p: Properties, k1: Field, v1: FieldValue, k2: Field, v2: FieldValue)
    requires v1.FieldOf() == k1 && v2.FieldOf() == k2 && k1 != k2
    ensures UpdateProperty(UpdateProperty(p, k1, v1), k2, v2)
         == UpdateProperty(UpdateProperty(p, k2, v2), k1, v1)
  {
    var a := UpdateProperty(UpdateProperty(p, k1, v1), k2, v2);
    var b := UpdateProperty(UpdateProperty(p, k2, v2), k1, v1);
    forall k: Field ensures Get(a, k) == Get(b, k) {
    }
    Extensionality(a, b);
  }

  // ---------------------------------------------------------------------
  // Display switch

  /** `checked={properties.display === 'flex'}`: the state the switch shows,
      written back through the switch, is the current display. */
  function SwitchChecked(p: Properties): (checked: bool)
    ensures DisplayOfSwitch(checked) == p.display
  {
    p.display == Flex
  }

  /** `checked ? 'flex' : 'block'`. */
  function DisplayOfSwitch(checked: bool): (d: Display)
    ensures d == Flex <==> checked
  {
    if checked then Flex else Block
  }

  /** Reading the switch and writing it back leaves the record as it was. */
  lemma {:induction false} SwitchRoundTrip(p: Properties)
    ensures UpdateProperty(p, DisplayField, DisplayValue(DisplayOfSwitch(SwitchChecked(p)))) == p
  {
    assert DisplayOfSwitch(SwitchChecked(p)) == p.display;
    UpdateToCurrentValue(p, DisplayField);
  }

  /** After the switch is set, it shows the state it was set to. */
  lemma {:induction false} SwitchShowsLastSetting(p: Properties, checked: bool)
    ensures SwitchChecked(UpdateProperty(p, DisplayField, DisplayValue(DisplayOfSwitch(checked)))) == checked
  {
  }

  // ---------------------------------------------------------------------
  // Control events

  /** The slider's values: whole numbers from 0 to 50 (step 1). */
  type SliderValue = v: int | 0 <= v <= 50

  /** What a control hands to `updateProperty`. */
  datatype ControlEvent =
    | DisplaySwitched(checked: bool)
    | DirectionSelected(flexDirection: FlexDirection)
    | WrapSelected(flexWrap: FlexWrap)
    | JustifySelected(justifyContent: JustifyContent)
    | AlignItemsSelected(alignItems: AlignItems)
    | AlignContentSelected(alignContent: AlignContent)
    | GapSlid(gap: SliderValue)

  /** The key a control is bound to. */
  function EventField(e: ControlEvent): Field
  {
    match e
    case DisplaySwitched(_) => DisplayField
    case DirectionSelected(_) => FlexDirectionField
    case WrapSelected(_) => FlexWrapField
    case JustifySelected(_) => JustifyContentField
    case AlignItemsSelected(_) => AlignItemsField
    case AlignContentSelected(_) => AlignContentField
    case GapSlid(_) => GapField
  }

  /** The value a control passes for its key. */
  function EventValue(e: ControlEvent): (v: FieldValue)
    ensures v.FieldOf() == EventField(e)
  {
    match e
    case DisplaySwitched(checked) => DisplayValue(DisplayOfSwitch(checked))
    case DirectionSelected(d) => FlexDirectionValue(d)
    case WrapSelected(w) => FlexWrapValue(w)
    case JustifySelected(j) => JustifyContentValue(j)
    case AlignItemsSelected(a) => AlignItemsValue(a)
    case AlignContentSelected(a) => AlignContentValue(a)
    case GapSlid(n) => GapValue(n)
  }

  /** The record after one control change: only the control's key moves. */
  function HandleEvent(p: Properties, e: ControlEvent): (r: Properties)
    ensures Get(r, EventField(e)) == EventValue(e)
    ensures forall k: Field :: k != EventField(e) ==> Get(r, k) == Get(p, k)
  {
    UpdateProperty(p, EventField(e), EventValue(e))
  }

  /** The record after a run of control changes, oldest first: the key of
      the latest change holds that change's value. */
  function ApplyEvents(p: Properties, events: seq<ControlEvent>): (r: Properties)
    ensures |events| > 0 ==> Get(r, EventField(events[|events| - 1])) == EventValue(events[|events| - 1])
    decreases |events|
  {
    if |events| == 0 then p else ApplyEvents(HandleEvent(p, events[0]), events[1..])
  }

  /** A run of changes followed by another is the second run applied to the
      result of the first. */
  lemma {:induction false} ApplyEventsAppend(p: Properties, a: seq<ControlEvent>, b: seq<ControlEvent>)
    ensures ApplyEvents(p, a + b) == ApplyEvents(ApplyEvents(p, a), b)
    decreases |a|
  {
    if |a| == 0 {
      assert a + b == b;
    } else {
      assert (a + b)[0] == a[0];
      assert (a + b)[1..] == a[1..] + b;
      ApplyEventsAppend(HandleEvent(p, a[0]), a[1..], b);
    }
  }

  /** The gap lies in the slider's range. */
  predicate GapInRange(p: Properties)
  {
    p.gap <= 50
  }

  /** Every control change keeps the gap in the slider's range. */
  lemma {:induction false} HandleEventKeepsGapInRange(p: Properties, e: ControlEvent)
    requires GapInRange(p)
    ensures GapInRange(HandleEvent(p, e))
  {
    if e.GapSlid? {
      assert Get(HandleEvent(p, e), GapField) == GapValue(e.gap);
    } else {
      assert Get(HandleEvent(p, e), GapField) == Get(p, GapField);
    }
  }

  /** Any run of control changes keeps the gap in the slider's range. */
  lemma {:induction false} ApplyEventsKeepsGapInRange(p: Properties, events: seq<ControlEvent>)
    requires GapInRange(p)
    ensures GapInRange(ApplyEvents(p, events))
    decreases |events|
  {
    if |events| > 0 {
      HandleEventKeepsGapInRange(p, events[0]);
      ApplyEventsKeepsGapInRange(HandleEvent(p, events[0]), events[1..]);
    }
  }

  /** From the playground's starting record, whatever the user does with the
      controls, the gap stays between 0 and 50. */
  lemma {:induction false} GapStaysInSliderRange(events: seq<ControlEvent>)
    ensures 0 <= ApplyEvents(Default, events).gap <= 50
  {
    ApplyEventsKeepsGapInRange(Default, events);
  }

  /** A run of changes none of which touches `key` leaves it as it was. */
  lemma {:induction false} UntouchedKeyKeepsValue(p: Properties, events: seq<ControlEvent>, key: Field)
    requires forall i :: 0 <= i < |events| ==> EventField(events[i]) != key
    ensures Get(ApplyEvents(p, events), key) == Get(p, key)
    decreases |events|
  {
    if |events| > 0 {
      UntouchedKeyKeepsValue(HandleEvent(p, events[0]), events[1..], key);
    }
  }

  /** The last change to a key decides its value: whatever comes after it
      touches other keys only. */
  lemma {:induction false} LastChangeDecides(p: Properties, events: seq<ControlEvent>, i: nat)
    requires i < |events|
    requires forall j :: i < j < |events| ==> EventField(events[j]) != EventField(events[i])
    ensures Get(ApplyEvents(p, events), EventField(events[i])) == EventValue(events[i])
  {
    var key := EventField(events[i]);
    var before, after := events[..i + 1], events[i + 1..];
    assert before + after == events;
    ApplyEventsAppend(p, before, after);
    assert before[|before| - 1] == events[i];
    forall j | 0 <= j < |after| ensures EventField(after[j]) != key {
      assert after[j] == events[i + 1 + j];
    }
    UntouchedKeyKeepsValue(ApplyEvents(p, before), after, key);
  }
}
