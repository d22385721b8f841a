/**
 * Which script notes the scheduler runs: of the notes labelled
 * `run=<value>`, those whose `runOnInstance` labels admit this instance and
 * whose `runAtHour` labels admit the current hour. The instance name and
 * the current hour are parameters; executing a note is recorded by
 * returning it.
 */
module Scheduler {
  import opened Common
  import opened NoteGraph
  import Inheritance

  const RUN_ON_INSTANCE := "runOnInstance"
  const RUN_AT_HOUR := "runAtHour"

  /**
   * `getRunAtHours`: every `runAtHour` value through `parseInt`, with `None`
   * standing for NaN.
   */
  function GetRunAtHours(attrs: seq<Attribute>): (r: seq<Option<int>>)
    ensures |r| == |LabelValues(attrs, RUN_AT_HOUR)|
  {
    var values := LabelValues(attrs, RUN_AT_HOUR);
    seq(|values|, k requires 0 <= k < |values| => ParseInt(values[k]))
  }

  /** The run-eligibility test of `runNotesWithLabel` for a note with attributes `attrs`. */
  predicate ShouldRun(attrs: seq<Attribute>, instanceName: Option<string>, currentHours: int)
  {
    var runOnInstances := LabelValues(attrs, RUN_ON_INSTANCE);
    var runAtHours := GetRunAtHours(attrs);
    (|runOnInstances| == 0 || (instanceName.Some? && instanceName.value in runOnInstances))
    && (|runAtHours| == 0 || Some(currentHours) in runAtHours)
  }

  /** A value is among `getLabelValues(name)` exactly when a label of that name carries it. */
  lemma {:induction false} LabelValuesMeaning(attrs: seq<Attribute>, name: string)
    requires name != ""
    ensures |LabelValues(attrs, name)| == 0 <==> !HasAttribute(attrs, Label, name, None)
    ensures forall v :: v in LabelValues(attrs, name) <==> HasAttribute(attrs, Label, name, Some(v))
  {
    var labels := Filter(attrs, a => Matches(a, "label", name));
    var values := LabelValues(attrs, name);
    forall v
      ensures v in values <==> HasAttribute(attrs, Label, name, Some(v))
    {
      if v in values {
        var k :| 0 <= k < |values| && values[k] == v;
        assert labels[k] in labels;
      }
      if HasAttribute(attrs, Label, name, Some(v)) {
        var a :| a in attrs && a.name == name && a.value == v && a.attrType == Label;
        assert a in labels;
        var k :| 0 <= k < |labels| && labels[k] == a;
        assert values[k] == v;
      }
    }
    if HasAttribute(attrs, Label, name, None) {
      var a :| a in attrs && a.name == name && a.attrType == Label;
      assert a in labels;
    }
    if |values| > 0 {
      assert labels[0] in labels;
    }
  }

  /** An hour that is listed comes from some `runAtHour` label parsing to it. */
  lemma RunAtHourOrigin(attrs: seq<Attribute>, hour: int)
    requires Some(hour) in GetRunAtHours(attrs)
    ensures exists a :: a in attrs && a.attrType == Label && a.name == RUN_AT_HOUR && ParseInt(a.value) == Some(hour)
  {
    LabelValuesMeaning(attrs, RUN_AT_HOUR);
    var values := LabelValues(attrs, RUN_AT_HOUR);
    var hours := GetRunAtHours(attrs);
    var k :| 0 <= k < |hours| && hours[k] == Some(hour);
    assert values[k] in values;
    assert HasAttribute(attrs, Label, RUN_AT_HOUR, Some(values[k]));
  }

  /** A `runAtHour` label parsing to an hour lists that hour. */
  lemma RunAtHourIntro(attrs: seq<Attribute>, a: Attribute)
    requires a in attrs && a.attrType == Label && a.name == RUN_AT_HOUR && ParseInt(a.value).Some?
    ensures ParseInt(a.value) in GetRunAtHours(attrs)
  {
    LabelValuesMeaning(attrs, RUN_AT_HOUR);
    var values := LabelValues(attrs, RUN_AT_HOUR);
    assert HasAttribute(attrs, Label, RUN_AT_HOUR, Some(a.value));
    var k :| 0 <= k < |values| && values[k] == a.value;
    assert GetRunAtHours(attrs)[k] == ParseInt(a.value);
  }

  /** An hour is listed exactly when some `runAtHour` label parses to it. */
  lemma RunAtHoursMeaning(attrs: seq<Attribute>, hour: int)
    ensures |GetRunAtHours(attrs)| == 0 <==> !HasAttribute(attrs, Label, RUN_AT_HOUR, None)
    ensures Some(hour) in GetRunAtHours(attrs) <==>
              exists a :: a in attrs && a.attrType == Label && a.name == RUN_AT_HOUR && ParseInt(a.value) == Some(hour)
  {
    LabelValuesMeaning(attrs, RUN_AT_HOUR);
    if Some(hour) in GetRunAtHours(attrs) {
      RunAtHourOrigin(attrs, hour);
    }
    if exists a :: a in attrs && a.attrType == Label && a.name == RUN_AT_HOUR && ParseInt(a.value) == Some(hour) {
      var a :| a in attrs && a.attrType == Label && a.name == RUN_AT_HOUR && ParseInt(a.value) == Some(hour);
      RunAtHourIntro(attrs, a);
    }
  }

  /**
   * The eligibility rule in terms of the note's labels: no `runOnInstance`
   * label or one naming this instance, and no `runAtHour` label or one
   * whose value parses to the current hour.
   */
  lemma ShouldRunMeaning(attrs: seq<Attribute>, instanceName: Option<string>, currentHours: int)
    ensures ShouldRun(attrs, instanceName, currentHours) <==>
              (!HasAttribute(attrs, Label, RUN_ON_INSTANCE, None)
               || (instanceName.Some? && HasAttribute(attrs, Label, RUN_ON_INSTANCE, Some(instanceName.value))))
              && (!HasAttribute(attrs, Label, RUN_AT_HOUR, None)
                  || exists a :: a in attrs && a.attrType == Label && a.name == RUN_AT_HOUR && ParseInt(a.value) == Some(currentHours))
  {
    LabelValuesMeaning(attrs, RUN_ON_INSTANCE);
    RunAtHoursMeaning(attrs, currentHours);
  }

  /**
   * A `runAtHour` label written as the decimal hour matches that hour, so
   * a note with only such a label (and no instance restriction) runs then.
   */
  lemma DecimalHourRuns(attrs: seq<Attribute>, instanceName: Option<string>, hour: nat)
    requires !HasAttribute(attrs, Label, RUN_ON_INSTANCE, None)
    requires forall a | a in attrs && a.attrType == Label && a.name == RUN_AT_HOUR :: a.value == NatToString(hour)
    ensures ShouldRun(attrs, instanceName, hour)
  {
    ShouldRunMeaning(attrs, instanceName, hour);
    ParseIntOfNatToString(hour);
  }

  /**
   * `runNotesWithLabel`: walks the notes `getNotesWithLabel('run', value)`
   * returned (a parameter here) and executes, in order, those the
   * eligibility rule admits.
   */
  method RunNotesWithLabel(notes: Store, notesWithLabel: seq<NoteId>, runAttrValue: string,
                           instanceName: Option<string>, currentHours: int) returns (executed: seq<NoteId>)
    requires forall id | id in notesWithLabel :: HasAttribute(Inheritance.AllAttributes(notes, id), Label, "run", Some(runAttrValue))
    ensures executed == Filter(notesWithLabel, id => ShouldRun(Inheritance.AllAttributes(notes, id), instanceName, currentHours))
    ensures forall id | id in executed :: HasAttribute(Inheritance.AllAttributes(notes, id), Label, "run", Some(runAttrValue))
  {
    ghost var eligible := id => ShouldRun(Inheritance.AllAttributes(notes, id), instanceName, currentHours);
    executed := [];
    for k := 0 to |notesWithLabel|
      invariant executed == Filter(notesWithLabel[..k], eligible)
    {
      var note := notesWithLabel[k];
      var attrs := Inheritance.AllAttributes(notes, note);
      var runOnInstances := LabelValues(attrs, RUN_ON_INSTANCE);
      var runAtHours := GetRunAtHours(attrs);
      if (|runOnInstances| == 0 || (instanceName.Some? && instanceName.value in runOnInstances))
         && (|runAtHours| == 0 || Some(currentHours) in runAtHours) {
        executed := executed + [note];
      }
      FilterPrefixStep(notesWithLabel, k, eligible);
    }
    assert notesWithLabel[..|notesWithLabel|] == notesWithLabel;
  }
}
