/**
 * Icon usage statistics: how often each icon class appears among the
 * `iconClass` labels of user notes. The labels are the ones
 * `becca.findAttributes('label', 'iconClass')` returns, passed in.
 */
module IconUsage {
  import opened Common
  import opened NoteGraph

  /** The base class every boxicon carries; it is not an icon of its own. */
  const BX := "bx"

  /** A word: no white space in it. */
  predicate NoSpace(w: string)
  {
    forall k | 0 <= k < |w| :: !IsJsSpace(w[k])
  }

  /** The length of the run of non-space characters `s` starts with. */
  function WordLength(s: string): (n: nat)
    ensures n <= |s|
    ensures NoSpace(s[..n])
    ensures n < |s| ==> IsJsSpace(s[n])
  {
    if |s| == 0 || IsJsSpace(s[0]) then 0
    else
      var n := WordLength(s[1..]);
      assert s[..1 + n] == [s[0]] + s[1..][..n];
      1 + n
  }

  /**
   * `s.split(/\s+/)` of a string that `trim` left non-empty: the maximal
   * runs of non-space characters, in order.
   */
  function Words(s: string): (r: seq<string>)
    ensures forall k | 0 <= k < |r| :: r[k] != "" && NoSpace(r[k])
    decreases |s|
  {
    if |s| == 0 then []
    else if IsJsSpace(s[0]) then Words(s[1..])
    else
      var n := WordLength(s);
      [s[..n]] + Words(s[n..])
  }

  /** A word followed by a space or by nothing is read whole. */
  lemma WordLengthOfWord(w: string, rest: string)
    requires NoSpace(w)
    requires |rest| > 0 ==> IsJsSpace(rest[0])
    ensures WordLength(w + rest) == |w|
    decreases |w|
  {
    if |w| > 0 {
      var s := w + rest;
      assert s[0] == w[0] && !IsJsSpace(w[0]);
      assert s[1..] == w[1..] + rest;
      assert NoSpace(w[1..]) by {
        forall k | 0 <= k < |w[1..]| ensures !IsJsSpace(w[1..][k]) {
          assert w[1..][k] == w[k + 1];
        }
      }
      WordLengthOfWord(w[1..], rest);
      assert WordLength(s) == 1 + WordLength(s[1..]);
    } else {
      assert w + rest == rest;
    }
  }

  /** Splitting the words joined by single spaces gives the words back. */
  lemma {:induction false} WordsOfJoin(ws: seq<string>)
    requires |ws| >= 1
    requires forall k | 0 <= k < |ws| :: ws[k] != "" && NoSpace(ws[k])
    ensures Words(Join(ws, ' ')) == ws
    decreases |ws|
  {
    var w := ws[0];
    if |ws| == 1 {
      WordLengthOfWord(w, "");
      assert w + "" == w;
      assert w[|w|..] == "";
    } else {
      var tail := Join(ws[1..], ' ');
      var s := w + [' '] + tail;
      assert s == w + ([' '] + tail);
      WordLengthOfWord(w, [' '] + tail);
      assert s[..|w|] == w;
      assert s[|w|..] == [' '] + tail;
      assert ([' '] + tail)[1..] == tail;
      WordsOfJoin(ws[1..]);
      assert [w] + ws[1..] == ws;
    }
  }

  /** The classes but `bx`, in order. */
  function WithoutBx(classes: seq<string>): seq<string>
  {
    if |classes| == 0 then []
    else if classes[0] == BX then WithoutBx(classes[1..])
    else [classes[0]] + WithoutBx(classes[1..])
  }

  lemma {:induction false} WithoutBxMembers(classes: seq<string>, c: string)
    ensures c in WithoutBx(classes) <==> c in classes && c != BX
  {
    if |classes| > 0 {
      WithoutBxMembers(classes[1..], c);
      assert classes == [classes[0]] + classes[1..];
    }
  }

  /**
   * The classes one `iconClass` label contributes: none for a system note
   * (id starting with `_`) or a blank value, else every class of the
   * trimmed value but `bx`.
   */
  function LabelClasses(a: Attribute): seq<string>
  {
    if StartsWith(a.noteId, "_") || Trim(a.value) == "" then []
    else WithoutBx(Words(Trim(a.value)))
  }

  /** Every class the labels contribute, in order. */
  function IconClasses(labels: seq<Attribute>): seq<string>
  {
    if |labels| == 0 then []
    else IconClasses(labels[..|labels| - 1]) + LabelClasses(labels[|labels| - 1])
  }

  /** One more occurrence of `c`: its count goes from 0 when absent, else up by 1. */
  function Bump(counts: map<string, nat>, c: string): map<string, nat>
  {
    counts[c := (if c in counts then counts[c] else 0) + 1]
  }

  /** The count map built by adding 1 per occurrence, starting from 0. */
  function Tally(classes: seq<string>): map<string, nat>
  {
    if |classes| == 0 then map[]
    else Bump(Tally(classes[..|classes| - 1]), classes[|classes| - 1])
  }

  lemma TallyAppend(classes: seq<string>, c: string)
    ensures Tally(classes + [c]) == Bump(Tally(classes), c)
  {
    assert (classes + [c])[..|classes|] == classes;
  }

  /** Counting `classes` on top of `counts`, one at a time, skipping `bx`. */
  function CountInto(counts: map<string, nat>, classes: seq<string>): map<string, nat>
    decreases |classes|
  {
    if |classes| == 0 then counts
    else CountInto(if classes[0] == BX then counts else Bump(counts, classes[0]), classes[1..])
  }

  lemma CountIntoStep(counts: map<string, nat>, classes: seq<string>, j: nat)
    requires j < |classes|
    ensures CountInto(counts, classes[j..]) ==
            CountInto(if classes[j] == BX then counts else Bump(counts, classes[j]), classes[j + 1..])
  {
    assert classes[j..][1..] == classes[j + 1..];
  }

  /** Counting classes on top of a tally is the tally of all of them, `bx` left out. */
  lemma {:induction false} CountIntoTally(done: seq<string>, classes: seq<string>)
    ensures CountInto(Tally(done), classes) == Tally(done + WithoutBx(classes))
    decreases |classes|
  {
    if |classes| == 0 {
      assert done + WithoutBx(classes) == done;
    } else {
      var c := classes[0];
      var rest := classes[1..];
      if c == BX {
        CountIntoTally(done, rest);
      } else {
        TallyAppend(done, c);
        CountIntoTally(done + [c], rest);
        assert done + [c] + WithoutBx(rest) == done + ([c] + WithoutBx(rest));
      }
    }
  }

  lemma IconClassesStep(labels: seq<Attribute>, i: nat)
    requires i < |labels|
    ensures IconClasses(labels[..i + 1]) == IconClasses(labels[..i]) + LabelClasses(labels[i])
  {
    assert labels[..i + 1][..i] == labels[..i];
  }

  /**
   * A class has a count exactly when it occurs, and its count is the
   * number of its occurrences.
   */
  lemma {:induction false} TallyCounts(classes: seq<string>)
    ensures forall c :: c in Tally(classes) <==> c in classes
    ensures forall c | c in Tally(classes) :: Tally(classes)[c] == multiset(classes)[c]
    decreases |classes|
  {
    if |classes| > 0 {
      var init := classes[..|classes| - 1];
      var last := classes[|classes| - 1];
      TallyCounts(init);
      assert classes == init + [last];
      assert multiset(classes) == multiset(init) + multiset{last};
    }
  }

  /** The label is a user note's and lists the class `c`. */
  predicate Lists(a: Attribute, c: string)
  {
    !StartsWith(a.noteId, "_") && c in Words(Trim(a.value))
  }

  /** What one label contributes: the classes it lists, but `bx`. */
  lemma LabelClassesMeaning(a: Attribute, c: string)
    ensures c in LabelClasses(a) <==> c != BX && Lists(a, c)
  {
    if Trim(a.value) == "" {
      assert Words(Trim(a.value)) == [];
    }
    WithoutBxMembers(Words(Trim(a.value)), c);
  }

  /** Some label of a user note lists the class `c`. */
  predicate Listed(labels: seq<Attribute>, c: string)
  {
    exists a | a in labels :: Lists(a, c)
  }

  lemma ListedSplit(labels: seq<Attribute>, c: string)
    requires |labels| > 0
    ensures Listed(labels, c) <==> Listed(labels[..|labels| - 1], c) || Lists(labels[|labels| - 1], c)
  {
    var init := labels[..|labels| - 1];
    var last := labels[|labels| - 1];
    assert labels == init + [last];
    if Listed(labels, c) {
      var a :| a in labels && Lists(a, c);
      assert a in init || a == last;
    }
    if Listed(init, c) {
      var a :| a in init && Lists(a, c);
      assert a in labels;
    }
    if Lists(last, c) {
      assert last in labels;
    }
  }

  /** A class is counted exactly when some user note's `iconClass` label lists it and it is not `bx`. */
  lemma {:induction false} IconClassesMeaning(labels: seq<Attribute>, c: string)
    ensures c in IconClasses(labels) <==> c != BX && Listed(labels, c)
    decreases |labels|
  {
    if |labels| > 0 {
      IconClassesMeaning(labels[..|labels| - 1], c);
      LabelClassesMeaning(labels[|labels| - 1], c);
      ListedSplit(labels, c);
    }
  }

  /**
   * The inner loop of `getIconUsage`: add 1 to the count of every class of
   * one label's value but `bx`.
   */
  method CountClasses(counts: map<string, nat>, classes: seq<string>) returns (counted: map<string, nat>)
    ensures counted == CountInto(counts, classes)
  {
    counted := counts;
    assert classes[0..] == classes;
    for j := 0 to |classes|
      invariant CountInto(counted, classes[j..]) == CountInto(counts, classes)
    {
      var clazz := classes[j];
      CountIntoStep(counted, classes, j);
      if clazz != BX {
        counted := counted[clazz := (if clazz in counted then counted[clazz] else 0) + 1];
      }
    }
  }

  /**
   * `getIconUsage`: for every label, skip system notes and blank values,
   * split the trimmed value on white space and count each class but `bx`.
   */
  method GetIconUsage(labels: seq<Attribute>) returns (iconClassToCountMap: map<string, nat>)
    ensures iconClassToCountMap == Tally(IconClasses(labels))
    ensures forall c :: c in iconClassToCountMap <==> c != BX && Listed(labels, c)
    ensures forall c | c in iconClassToCountMap :: iconClassToCountMap[c] == multiset(IconClasses(labels))[c]
  {
    iconClassToCountMap := map[];
    for i := 0 to |labels|
      invariant iconClassToCountMap == Tally(IconClasses(labels[..i]))
    {
      var a := labels[i];
      IconClassesStep(labels, i);
      var iconClass := Trim(a.value);
      if !StartsWith(a.noteId, "_") && iconClass != "" {
        iconClassToCountMap := CountClasses(iconClassToCountMap, Words(iconClass));
        CountIntoTally(IconClasses(labels[..i]), Words(iconClass));
      } else {
        assert IconClasses(labels[..i]) + LabelClasses(a) == IconClasses(labels[..i]);
      }
    }
    assert labels[..|labels|] == labels;
    TallyCounts(IconClasses(labels));
    forall c {
      IconClassesMeaning(labels, c);
    }
  }
}
