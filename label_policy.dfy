/** The label policy of process.py: `format_parents`, `parse_labels_new` (ignore-list
    mode) and `parse_labels_alarm` (allow-list mode). */
module LabelPolicy {
  import opened Wrappers
  import opened Detection
  import opened OrderedDict

  /** The names joined with ", ", the reference for `format_parents`. */
  function Join(names: seq<string>): string
  {
    if |names| == 0 then ""
    else if |names| == 1 then names[0]
    else Join(names[..|names| - 1]) + ", " + names[|names| - 1]
  }

  /** What the loop of `format_parents` accumulates: every name followed by ", ". */
  function Suffixed(names: seq<string>): string
  {
    if |names| == 0 then "" else Suffixed(names[..|names| - 1]) + names[|names| - 1] + ", "
  }

  /** The accumulated string is the join plus one trailing separator, which
      `format_parents` strips. */
  lemma {:induction false} SuffixedIsJoinWithSeparator(names: seq<string>)
    ensures |names| == 0 ==> Suffixed(names) == ""
    ensures |names| > 0 ==> Suffixed(names) == Join(names) + ", "
  {
    if |names| > 1 {
      SuffixedIsJoinWithSeparator(names[..|names| - 1]);
    }
  }

  /** The joined names are empty only for no names or a single empty name. */
  lemma {:induction false} JoinEmptyIff(names: seq<string>)
    ensures Join(names) == "" <==> |names| == 0 || (|names| == 1 && names[0] == "")
  {
    if |names| > 1 {
      assert |Join(names)| >= 2;
    }
  }

  /** `format_parents`: the parent names in order, separated by ", ". */
  method FormatParents(parents: seq<Parent>) returns (formatted: string)
    ensures formatted == Join(ParentNames(parents))
    ensures |parents| == 0 ==> formatted == ""
  {
    ghost var names := ParentNames(parents);
    formatted := "";
    var i := 0;
    while i < |parents|
      invariant 0 <= i <= |parents|
      invariant formatted == Suffixed(names[..i])
    {
      assert names[..i + 1][..i] == names[..i];
      formatted := formatted + parents[i].name + ", ";
      i := i + 1;
    }
    assert names[..i] == names;
    SuffixedIsJoinWithSeparator(names);
    if |formatted| > 0 {
      formatted := formatted[..|formatted| - 2];
    } else {
      formatted := "";
    }
  }

  /** Some parent of the label is on the ignore list. */
  predicate HasIgnoredParent(l: Label, ignore: seq<string>) {
    exists i :: 0 <= i < |l.parents| && l.parents[i].name in ignore
  }

  /** The key `parse_labels_new` stores: "Name (P1, P2)", or the bare name when
      the formatted parent list is empty. */
  function DisplayName(l: Label): string {
    var p := Join(ParentNames(l.parents));
    if |p| > 0 then l.name + " (" + p + ")" else l.name
  }

  /** The parenthesised form appears exactly when the label has parents, except
      for a single parent with an empty name. */
  lemma DisplayNameWithParents(l: Label)
    ensures (|l.parents| > 1 || (|l.parents| == 1 && l.parents[0].name != "")) ==>
              DisplayName(l) == l.name + " (" + Join(ParentNames(l.parents)) + ")"
    ensures |l.parents| == 0 ==> DisplayName(l) == l.name
  {
    JoinEmptyIff(ParentNames(l.parents));
  }

  /** The two modes, both configured by the list `labels`. */
  datatype Policy = NewLabels(ignore: seq<string>) | AlarmLabels(alarm: seq<string>)

  /** The key under which a label is stored, or None when the label is skipped. */
  function Admit(p: Policy, l: Label): (key: Option<string>)
  {
    match p
    case NewLabels(ignore) =>
      if l.name in ignore || HasIgnoredParent(l, ignore) then None else Some(DisplayName(l))
    case AlarmLabels(alarm) =>
      if l.name in alarm then Some(l.name) else None
  }

  /** The dictionary the parsers build: labels in order, each admitted one assigned
      under its key. */
  function Filtered(p: Policy, labels: seq<Label>): Dict<Percent>
  {
    if |labels| == 0 then []
    else
      var d := Filtered(p, labels[..|labels| - 1]);
      var l := labels[|labels| - 1];
      match Admit(p, l)
      case None => d
      case Some(k) => Put(d, k, l.confidence)
  }

  /** The confidence of the last admitted label with key k: the reference for
      last-write-wins. */
  function LastAdmitted(p: Policy, labels: seq<Label>, k: string): Option<Percent>
  {
    if |labels| == 0 then None
    else if Admit(p, labels[|labels| - 1]) == Some(k) then Some(labels[|labels| - 1].confidence)
    else LastAdmitted(p, labels[..|labels| - 1], k)
  }

  /** Last write wins: every key reads as the confidence of the last label that produced it,
      and keys no label produced are absent. */
  lemma {:induction false} FilteredLastWriteWins(p: Policy, labels: seq<Label>, k: string)
    ensures Get(Filtered(p, labels), k) == LastAdmitted(p, labels, k)
  {
    if |labels| > 0 {
      var l := labels[|labels| - 1];
      FilteredLastWriteWins(p, labels[..|labels| - 1], k);
      match Admit(p, l)
      case None =>
      case Some(key) =>
        PutGet(Filtered(p, labels[..|labels| - 1]), key, l.confidence, k);
    }
  }

  /** The reference value is exactly the confidence of the last label admitted under k. */
  lemma {:induction false} LastAdmittedIsLast(p: Policy, labels: seq<Label>, k: string)
    ensures LastAdmitted(p, labels, k).Some? <==> exists i :: 0 <= i < |labels| && Admit(p, labels[i]) == Some(k)
    ensures LastAdmitted(p, labels, k).Some? ==>
              exists i :: 0 <= i < |labels| && Admit(p, labels[i]) == Some(k)
                && LastAdmitted(p, labels, k).value == labels[i].confidence
                && forall j :: i < j < |labels| ==> Admit(p, labels[j]) != Some(k)
  {
    if |labels| > 0 {
      var n := |labels| - 1;
      var pre := labels[..n];
      LastAdmittedIsLast(p, pre, k);
      if Admit(p, labels[n]) != Some(k) {
        assert forall i :: 0 <= i < n ==> pre[i] == labels[i];
        if LastAdmitted(p, labels, k).Some? {
          var i :| 0 <= i < |pre| && Admit(p, pre[i]) == Some(k)
                   && LastAdmitted(p, pre, k).value == pre[i].confidence
                   && forall j :: i < j < |pre| ==> Admit(p, pre[j]) != Some(k);
          assert forall j :: i < j < |labels| ==> Admit(p, labels[j]) != Some(k) by {
            forall j | i < j < |labels| ensures Admit(p, labels[j]) != Some(k) {
              if j < n { assert pre[j] == labels[j]; }
            }
          }
        }
      }
    }
  }

  /** A key is in the dictionary iff some label was admitted under it. */
  lemma FilteredKeys(p: Policy, labels: seq<Label>, k: string)
    ensures HasKey(Filtered(p, labels), k) <==> exists i :: 0 <= i < |labels| && Admit(p, labels[i]) == Some(k)
  {
    FilteredLastWriteWins(p, labels, k);
    LastAdmittedIsLast(p, labels, k);
  }

  /** No key occurs twice. */
  lemma {:induction false} FilteredDistinct(p: Policy, labels: seq<Label>)
    ensures DistinctKeys(Filtered(p, labels))
  {
    if |labels| > 0 {
      var l := labels[|labels| - 1];
      FilteredDistinct(p, labels[..|labels| - 1]);
      match Admit(p, l)
      case None =>
      case Some(key) =>
        PutDistinct(Filtered(p, labels[..|labels| - 1]), key, l.confidence);
    }
  }

  /** At most one entry per label. */
  lemma {:induction false} FilteredSize(p: Policy, labels: seq<Label>)
    ensures |Filtered(p, labels)| <= |labels|
  {
    if |labels| > 0 {
      var l := labels[|labels| - 1];
      FilteredSize(p, labels[..|labels| - 1]);
      match Admit(p, l)
      case None =>
      case Some(key) =>
        PutSize(Filtered(p, labels[..|labels| - 1]), key, l.confidence);
    }
  }

  /** Ignore-list mode: a key is present iff some label, neither named nor parented by an
      ignored name, has it as display name. */
  lemma NewLabelsKeys(ignore: seq<string>, labels: seq<Label>, k: string)
    ensures HasKey(Filtered(NewLabels(ignore), labels), k) <==>
              exists i :: 0 <= i < |labels| && labels[i].name !in ignore
                && (forall j :: 0 <= j < |labels[i].parents| ==> labels[i].parents[j].name !in ignore)
                && DisplayName(labels[i]) == k
  {
    FilteredKeys(NewLabels(ignore), labels, k);
  }

  /** Allow-list mode: the keys are exactly the label names that are on the alarm list. */
  lemma AlarmLabelsKeys(alarm: seq<string>, labels: seq<Label>, k: string)
    ensures HasKey(Filtered(AlarmLabels(alarm), labels), k) <==>
              k in alarm && exists i :: 0 <= i < |labels| && labels[i].name == k
  {
    FilteredKeys(AlarmLabels(alarm), labels, k);
  }

  /** `parse_labels_new`. */
  method ParseLabelsNew(labels: seq<Label>, ignore: seq<string>) returns (detected: Dict<Percent>)
    ensures detected == Filtered(NewLabels(ignore), labels)
    ensures DistinctKeys(detected) && |detected| <= |labels|
    ensures forall k :: Get(detected, k) == LastAdmitted(NewLabels(ignore), labels, k)
  {
    detected := [];
    var i := 0;
    while i < |labels|
      invariant 0 <= i <= |labels|
      invariant detected == Filtered(NewLabels(ignore), labels[..i])
    {
      assert labels[..i + 1][..i] == labels[..i];
      var lab := labels[i];
      var name := lab.name;
      if name !in ignore {
        var inParent := false;
        var j := 0;
        while j < |lab.parents|
          invariant 0 <= j <= |lab.parents|
          invariant forall m :: 0 <= m < j ==> lab.parents[m].name !in ignore
        {
          if lab.parents[j].name in ignore {
            inParent := true;
            break;
          }
          j := j + 1;
        }
        assert inParent <==> HasIgnoredParent(lab, ignore);
        if !inParent {
          var p := FormatParents(lab.parents);
          var fullname := if |p| > 0 then name + " (" + p + ")" else name;
          detected := Put(detected, fullname, lab.confidence);
        }
      }
      i := i + 1;
    }
    assert labels[..i] == labels;
    FilteredDistinct(NewLabels(ignore), labels);
    FilteredSize(NewLabels(ignore), labels);
    forall k ensures Get(detected, k) == LastAdmitted(NewLabels(ignore), labels, k) {
      FilteredLastWriteWins(NewLabels(ignore), labels, k);
    }
  }

  /** `parse_labels_alarm`. */
  method ParseLabelsAlarm(labels: seq<Label>, alarm: seq<string>) returns (detected: Dict<Percent>)
    ensures detected == Filtered(AlarmLabels(alarm), labels)
    ensures DistinctKeys(detected) && |detected| <= |labels|
    ensures forall k :: Get(detected, k) == LastAdmitted(AlarmLabels(alarm), labels, k)
  {
    detected := [];
    var i := 0;
    while i < |labels|
      invariant 0 <= i <= |labels|
      invariant detected == Filtered(AlarmLabels(alarm), labels[..i])
    {
      assert labels[..i + 1][..i] == labels[..i];
      var name := labels[i].name;
      if name in alarm {
        detected := Put(detected, name, labels[i].confidence);
      }
      i := i + 1;
    }
    assert labels[..i] == labels;
    FilteredDistinct(AlarmLabels(alarm), labels);
    FilteredSize(AlarmLabels(alarm), labels);
    forall k ensures Get(detected, k) == LastAdmitted(AlarmLabels(alarm), labels, k) {
      FilteredLastWriteWins(AlarmLabels(alarm), labels, k);
    }
  }
}
