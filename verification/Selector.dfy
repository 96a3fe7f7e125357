// Label and field selectors (discovery/selector.go).
module Selector {
  import opened ApiTypes
  import opened Strings

  // What a selector is matched against: an object's labels, or the fields it can be selected by.
  datatype Subject = Labels(values: map<string, string>) | Fields(values: map<string, string>)

  function ValueOf(values: map<string, string>, k: string): string {
    if k in values then values[k] else ""
  }

  // One key and value compared.  An absent label counts as empty, an unknown field matches whatever is asked.
  predicate Compares(on: Subject, k: string, v: string, equal: bool) {
    match on
    case Labels(values) => (ValueOf(values, k) == v) == equal
    case Fields(values) => k in values ==> (values[k] == v) == equal
  }

  // A part split around its operator.
  predicate Compared(on: Subject, part: string, operator: string, equal: bool)
    requires operator != ""
  {
    var kv := Split(part, operator);
    |kv| == 2 && Compares(on, TrimSpace(kv[0]), TrimSpace(kv[1]), equal)
  }

  // One part of a selector, trimmed.
  predicate PartMatches(on: Subject, part: string) {
    if part == "" then true
    else if Contains(part, "!=") then Compared(on, part, "!=", false)
    else if Contains(part, "==") then Compared(on, part, "==", true)
    else if Contains(part, "=") then Compared(on, part, "=", true)
    else on.Labels? && part in on.values
  }

  predicate Piece(on: Subject, piece: string) {
    PartMatches(on, TrimSpace(piece))
  }

  predicate AllMatch(on: Subject, pieces: seq<string>) {
    forall i :: 0 <= i < |pieces| ==> Piece(on, pieces[i])
  }

  predicate Matches(on: Subject, selector: string) {
    AllMatch(on, Split(selector, ","))
  }

  function PhaseName(phase: Phase): string {
    match phase
    case NoPhase => ""
    case Pending => "Pending"
    case Running => "Running"
    case Succeeded => "Succeeded"
    case Failed => "Failed"
  }

  function MetadataFields(k: Key): Subject {
    Fields(map["metadata.name" := k.name, "metadata.namespace" := k.ns])
  }

  function PodFields(pod: Pod): Subject {
    Fields(map["metadata.name" := pod.key.name, "metadata.namespace" := pod.key.ns,
               "status.phase" := PhaseName(pod.status.phase)])
  }

  method MatchLabels(labels: map<string, string>, selector: string) returns (matched: bool)
    ensures matched == Matches(Labels(labels), selector)
  {
    if selector == "" {
      EmptyMatches(Labels(labels));
      return true;
    }
    matched := MatchLabelParts(labels, Split(selector, ","));
  }

  // The loop of MatchLabels.
  method MatchLabelParts(labels: map<string, string>, parts: seq<string>) returns (matched: bool)
    ensures matched == AllMatch(Labels(labels), parts)
  {
    for i := 0 to |parts|
      invariant forall j :: 0 <= j < i ==> Piece(Labels(labels), parts[j])
    {
      var ok := MatchLabelPart(labels, parts[i]);
      if !ok {
        return false;
      }
    }
    return true;
  }

  // The body of MatchLabels' loop.
  method MatchLabelPart(labels: map<string, string>, piece: string) returns (matched: bool)
    ensures matched == Piece(Labels(labels), piece)
  {
    var part := TrimSpace(piece);
    if part == "" {
      return true;
    }
    if Contains(part, "!=") {
      var kv := Split(part, "!=");
      if |kv| != 2 {
        return false;
      }
      return ValueOf(labels, TrimSpace(kv[0])) != TrimSpace(kv[1]);
    } else if Contains(part, "==") {
      var kv := Split(part, "==");
      if |kv| != 2 {
        return false;
      }
      return ValueOf(labels, TrimSpace(kv[0])) == TrimSpace(kv[1]);
    } else if Contains(part, "=") {
      var kv := Split(part, "=");
      if |kv| != 2 {
        return false;
      }
      return ValueOf(labels, TrimSpace(kv[0])) == TrimSpace(kv[1]);
    }
    return part in labels;
  }

  // MatchFields and MatchMetadataFields differ in the fields they know.
  method MatchFields(fields: map<string, string>, selector: string) returns (matched: bool)
    ensures matched == Matches(Fields(fields), selector)
  {
    if selector == "" {
      EmptyMatches(Fields(fields));
      return true;
    }
    matched := MatchFieldParts(fields, Split(selector, ","));
  }

  // The loop of MatchFields.
  method MatchFieldParts(fields: map<string, string>, parts: seq<string>) returns (matched: bool)
    ensures matched == AllMatch(Fields(fields), parts)
  {
    for i := 0 to |parts|
      invariant forall j :: 0 <= j < i ==> Piece(Fields(fields), parts[j])
    {
      var ok := MatchFieldPart(fields, parts[i]);
      if !ok {
        return false;
      }
    }
    return true;
  }

  // The body of the loop over fields.
  method MatchFieldPart(fields: map<string, string>, piece: string) returns (matched: bool)
    ensures matched == Piece(Fields(fields), piece)
  {
    var part := TrimSpace(piece);
    if part == "" {
      return true;
    }
    var isNot := false;
    var kv: seq<string>;
    if Contains(part, "!=") {
      isNot := true;
      kv := Split(part, "!=");
    } else if Contains(part, "==") {
      kv := Split(part, "==");
    } else if Contains(part, "=") {
      kv := Split(part, "=");
    } else {
      return false;
    }
    if |kv| != 2 {
      return false;
    }
    var field, val := TrimSpace(kv[0]), TrimSpace(kv[1]);
    if field !in fields {
      return true;
    }
    return if isNot then fields[field] != val else fields[field] == val;
  }

  lemma EmptyMatches(on: Subject)
    ensures Matches(on, "")
  {
    assert Split("", ",") == [""];
  }

  // A comma is a conjunction, whatever stands on either side of it.
  lemma CommaIsAnd(on: Subject, a: string, b: string)
    ensures Matches(on, a + "," + b) <==> Matches(on, a) && Matches(on, b)
  {
    SplitAppend(a, ',', b);
    assert "," == [','];
    AllMatchAppend(on, Split(a, ","), Split(b, ","));
  }

  lemma AllMatchAppend(on: Subject, p: seq<string>, q: seq<string>)
    ensures AllMatch(on, p + q) <==> AllMatch(on, p) && AllMatch(on, q)
  {
    if AllMatch(on, p + q) {
      forall i | 0 <= i < |p|
        ensures Piece(on, p[i])
      {
        assert (p + q)[i] == p[i];
      }
      forall i | 0 <= i < |q|
        ensures Piece(on, q[i])
      {
        assert (p + q)[|p| + i] == q[i];
      }
    }
  }

  datatype Requirement = Equal(k: string, v: string) | DoubleEqual(k: string, v: string)
                       | NotEqual(k: string, v: string) | Exists(k: string)

  function Print(r: Requirement): string {
    match r
    case Equal(k, v) => k + "=" + v
    case DoubleEqual(k, v) => k + "==" + v
    case NotEqual(k, v) => k + "!=" + v
    case Exists(k) => k
  }

  predicate Satisfies(on: Subject, r: Requirement) {
    match r
    case Equal(k, v) => Compares(on, k, v, true)
    case DoubleEqual(k, v) => Compares(on, k, v, true)
    case NotEqual(k, v) => Compares(on, k, v, false)
    case Exists(k) => on.Labels? && k in on.values
  }

  // No white space at either end.
  predicate Trimmed(s: string) {
    s != "" ==> !IsSpace(s[0]) && !IsSpace(s[|s| - 1])
  }

  predicate CleanKey(k: string) {
    k != "" && Trimmed(k) && ',' !in k && '=' !in k && '!' !in k
  }

  predicate CleanValue(v: string) {
    Trimmed(v) && ',' !in v && '=' !in v
  }

  predicate Clean(r: Requirement) {
    CleanKey(r.k) && (r.Exists? || CleanValue(r.v))
  }

  lemma TrimmedStays(s: string)
    requires Trimmed(s)
    ensures TrimSpace(s) == s
  {
  }

  lemma PrintedIsTrimmed(r: Requirement)
    requires Clean(r)
    ensures Trimmed(Print(r)) && ',' !in Print(r) && Print(r) != ""
  {
    var s := Print(r);
    assert s[0] == r.k[0];
    if !r.Exists? && r.v != "" {
      assert s[|s| - 1] == r.v[|r.v| - 1];
    }
  }

  // The operator of a printed requirement is recognised, and splits it into its key and value.
  lemma PrintedParses(on: Subject, r: Requirement)
    requires Clean(r)
    ensures PartMatches(on, Print(r)) <==> Satisfies(on, r)
  {
    TrimmedStays(r.k);
    if !r.Exists? {
      TrimmedStays(r.v);
    }
    match r
    case Exists(k) => ValueLacks(k);
    case Equal(k, v) => EqualParses(on, k, v);
    case DoubleEqual(k, v) => DoubleEqualParses(on, k, v);
    case NotEqual(k, v) => NotEqualParses(on, k, v);
  }

  // White space on either side of the operator does not count.
  lemma ComparedParses(on: Subject, k: string, operator: string, v: string, equal: bool)
    requires '=' !in k && '!' !in k && '=' !in v
    requires operator == "=" || operator == "==" || operator == "!="
    ensures Contains(k + operator + v, operator)
    ensures Compared(on, k + operator + v, operator, equal) <==> Compares(on, TrimSpace(k), TrimSpace(v), equal)
  {
    ValueLacks(v);
    SplitOnce(k, operator, v);
  }

  lemma EqualParses(on: Subject, k: string, v: string)
    requires '=' !in k && '!' !in k && '=' !in v
    ensures PartMatches(on, k + "=" + v) <==> Compares(on, TrimSpace(k), TrimSpace(v), true)
  {
    NotAtEquals(v);
    NotAcross(k, "=" + v, "!=");
    NotAcross(k, "=" + v, "==");
    assert k + "=" + v == k + ("=" + v);
    ComparedParses(on, k, "=", v, true);
  }

  lemma DoubleEqualParses(on: Subject, k: string, v: string)
    requires '=' !in k && '!' !in k && '=' !in v
    ensures PartMatches(on, k + "==" + v) <==> Compares(on, TrimSpace(k), TrimSpace(v), true)
  {
    NotAtDouble(v);
    NotAcross(k, "==" + v, "!=");
    assert k + "==" + v == k + ("==" + v);
    ComparedParses(on, k, "==", v, true);
  }

  lemma NotEqualParses(on: Subject, k: string, v: string)
    requires '=' !in k && '!' !in k && '=' !in v
    ensures PartMatches(on, k + "!=" + v) <==> Compares(on, TrimSpace(k), TrimSpace(v), false)
  {
    ComparedParses(on, k, "!=", v, false);
  }

  lemma ValueLacks(v: string)
    requires '=' !in v
    ensures !Contains(v, "!=") && !Contains(v, "==") && !Contains(v, "=")
  {
    AbsentCharacter(v, "!=", '=');
    AbsentCharacter(v, "==", '=');
    AbsentCharacter(v, "=", '=');
  }

  lemma NotAtEquals(v: string)
    requires '=' !in v
    ensures !Contains("=" + v, "!=") && !Contains("=" + v, "==")
  {
    ValueLacks(v);
    var s := "=" + v;
    assert s[1..] == v && s[0] == '=';
    assert |s| >= 2 ==> s[..2][0] == '=' && s[..2][1] == v[0];
  }

  lemma NotAtDouble(v: string)
    requires '=' !in v
    ensures !Contains("==" + v, "!=")
  {
    NotAtEquals(v);
    var s := "==" + v;
    assert s[1..] == "=" + v && s[..2][0] == '=';
  }

  function PrintAll(rs: seq<Requirement>): string {
    if rs == [] then ""
    else if |rs| == 1 then Print(rs[0])
    else Print(rs[0]) + "," + PrintAll(rs[1..])
  }

  lemma OnePart(on: Subject, r: Requirement)
    requires Clean(r)
    ensures Matches(on, Print(r)) <==> Satisfies(on, r)
  {
    var s := Print(r);
    PrintedIsTrimmed(r);
    PrintedParses(on, r);
    TrimmedStays(s);
    AbsentCharacter(s, ",", ',');
    SplitIffContains(s, ",");
    JoinSplit(s, ",");
    assert Split(s, ",") == [s];
  }

  // Printing requirements and matching the text is evaluating the requirements.
  lemma {:induction false} PrintThenMatch(on: Subject, rs: seq<Requirement>)
    requires forall i :: 0 <= i < |rs| ==> Clean(rs[i])
    ensures Matches(on, PrintAll(rs)) <==> forall i :: 0 <= i < |rs| ==> Satisfies(on, rs[i])
  {
    if |rs| == 0 {
      assert Split("", ",") == [""];
    } else {
      OnePart(on, rs[0]);
      if |rs| > 1 {
        PrintThenMatch(on, rs[1..]);
        CommaIsAnd(on, Print(rs[0]), PrintAll(rs[1..]));
        assert forall i :: 1 <= i < |rs| ==> rs[i] == rs[1..][i - 1];
      }
    }
  }

  // A field that is not known matches anything, so knowing fewer fields can only match more.
  lemma FewerFieldsMatchMore(fields: map<string, string>, more: map<string, string>, selector: string)
    requires forall k :: k in fields ==> k in more && more[k] == fields[k]
    requires Matches(Fields(more), selector)
    ensures Matches(Fields(fields), selector)
  {
    var parts := Split(selector, ",");
    forall i | 0 <= i < |parts|
      ensures Piece(Fields(fields), parts[i])
    {
      assert Piece(Fields(more), parts[i]);
    }
  }

  // A pod selected by its fields is selected by its metadata alone.
  lemma PodFieldsAreStricter(pod: Pod, selector: string)
    requires Matches(PodFields(pod), selector)
    ensures Matches(MetadataFields(pod.key), selector)
  {
    FewerFieldsMatchMore(MetadataFields(pod.key).values, PodFields(pod).values, selector);
  }

  // White space after a comma does not count.
  lemma SpaceAfterComma(on: Subject, a: string, c: char, b: string)
    requires c == ' ' || c == '\t' || c == '\n' || c == '\r'
    ensures Matches(on, a + "," + ([c] + b)) <==> Matches(on, a) && Matches(on, b)
  {
    var s := [c] + b;
    CommaIsAnd(on, a, s);
    assert s[0] == c && s[1..] == b && "," == [','];
    SplitFirst(s, ',');
    var rest := Split(b, ",");
    assert Split(s, ",") == [[c] + rest[0]] + rest[1..];
    TrimFront(c, rest[0]);
    assert rest == [rest[0]] + rest[1..];
    FirstPiece(on, [c] + rest[0], rest[1..]);
    FirstPiece(on, rest[0], rest[1..]);
  }

  lemma FirstPiece(on: Subject, piece: string, rest: seq<string>)
    ensures AllMatch(on, [piece] + rest) <==> Piece(on, piece) && AllMatch(on, rest)
  {
    AllMatchAppend(on, [piece], rest);
    assert AllMatch(on, [piece]) <==> Piece(on, [piece][0]);
  }

  // White space around an operator does not count.
  lemma SpacesAroundOperator(on: Subject, k: string, operator: string, v: string)
    requires CleanKey(k) && CleanValue(v)
    requires operator == "=" || operator == "==" || operator == "!="
    ensures PartMatches(on, (k + " ") + operator + (" " + v)) <==> Compares(on, k, v, operator != "!=")
  {
    TrimBack(k, ' ');
    TrimFront(' ', v);
    assert " " == [' '];
    TrimmedStays(k);
    TrimmedStays(v);
    if operator == "=" {
      EqualParses(on, k + " ", " " + v);
    } else if operator == "==" {
      DoubleEqualParses(on, k + " ", " " + v);
    } else {
      NotEqualParses(on, k + " ", " " + v);
    }
  }

  // A label requirement, in terms of the labels: an absent one counts as empty, and asked for alone it must be there.
  lemma LabelSelects(labels: map<string, string>, k: string, v: string)
    requires CleanKey(k) && CleanValue(v)
    ensures Matches(Labels(labels), k + "=" + v) <==> (k in labels && labels[k] == v) || (k !in labels && v == "")
    ensures Matches(Labels(labels), k + "==" + v) <==> Matches(Labels(labels), k + "=" + v)
    ensures Matches(Labels(labels), k + "!=" + v) <==> !Matches(Labels(labels), k + "=" + v)
    ensures Matches(Labels(labels), k) <==> k in labels
  {
    OnePart(Labels(labels), Equal(k, v));
    OnePart(Labels(labels), DoubleEqual(k, v));
    OnePart(Labels(labels), NotEqual(k, v));
    OnePart(Labels(labels), Exists(k));
  }

  // The fields a pod can be selected by.
  lemma FieldSelects(pod: Pod, v: string)
    requires CleanValue(v)
    ensures Matches(PodFields(pod), "metadata.name=" + v) <==> pod.key.name == v
    ensures Matches(PodFields(pod), "metadata.namespace=" + v) <==> pod.key.ns == v
    ensures Matches(PodFields(pod), "metadata.name!=" + v) <==> pod.key.name != v
    ensures Matches(MetadataFields(pod.key), "metadata.name=" + v) <==> pod.key.name == v
    ensures Matches(MetadataFields(pod.key), "metadata.namespace=" + v) <==> pod.key.ns == v
    ensures Matches(MetadataFields(pod.key), "status.phase=" + v)
  {
    FieldNamesClean();
    OnePart(PodFields(pod), Equal("metadata.name", v));
    OnePart(PodFields(pod), Equal("metadata.namespace", v));
    OnePart(PodFields(pod), NotEqual("metadata.name", v));
    OnePart(MetadataFields(pod.key), Equal("metadata.name", v));
    OnePart(MetadataFields(pod.key), Equal("metadata.namespace", v));
    OnePart(MetadataFields(pod.key), Equal("status.phase", v));
    assert "metadata.name" + "=" == "metadata.name=" && "metadata.namespace" + "=" == "metadata.namespace=";
    assert "metadata.name" + "!=" == "metadata.name!=" && "status.phase" + "=" == "status.phase=";
  }

  lemma FieldNamesClean()
    ensures CleanKey("metadata.name") && CleanKey("metadata.namespace") && CleanKey("status.phase")
  {
  }

  lemma PhaseFieldSelects(pod: Pod, v: string)
    requires CleanValue(v)
    ensures Matches(PodFields(pod), "status.phase=" + v) <==> PhaseName(pod.status.phase) == v
  {
    FieldNamesClean();
    OnePart(PodFields(pod), Equal("status.phase", v));
    assert "status.phase" + "=" == "status.phase=";
  }

  // A pod is selected by the name of its phase.
  lemma PhaseSelects(pod: Pod)
    ensures Matches(PodFields(pod), "status.phase=" + "Pending") <==> pod.status.phase == Pending
    ensures Matches(PodFields(pod), "status.phase=" + "Running") <==> pod.status.phase == Running
    ensures Matches(PodFields(pod), "status.phase=" + "Succeeded") <==> pod.status.phase == Succeeded
    ensures Matches(PodFields(pod), "status.phase=" + "Failed") <==> pod.status.phase == Failed
    ensures Matches(PodFields(pod), "status.phase=" + "") <==> pod.status.phase == NoPhase
  {
    OnePhaseSelects(pod, Pending);
    OnePhaseSelects(pod, Running);
    OnePhaseSelects(pod, Succeeded);
    OnePhaseSelects(pod, Failed);
    OnePhaseSelects(pod, NoPhase);
  }

  lemma OnePhaseSelects(pod: Pod, phase: Phase)
    ensures Matches(PodFields(pod), "status.phase=" + PhaseName(phase)) <==> pod.status.phase == phase
  {
    PhaseNameClean(phase);
    PhaseFieldSelects(pod, PhaseName(phase));
    PhaseNamesDiffer(pod.status.phase);
    PhaseNamesDiffer(phase);
  }

  lemma PhaseNameClean(phase: Phase)
    ensures CleanValue(PhaseName(phase))
  {
    match phase
    case NoPhase =>
    case Pending => assert "Pending"[0] == 'P' && "Pending"[6] == 'g';
    case Running => assert "Running"[0] == 'R' && "Running"[6] == 'g';
    case Succeeded => assert "Succeeded"[0] == 'S' && "Succeeded"[8] == 'd';
    case Failed => assert "Failed"[0] == 'F' && "Failed"[5] == 'd';
  }

  lemma PhaseNamesDiffer(phase: Phase)
    ensures PhaseName(phase) == "Pending" <==> phase == Pending
    ensures PhaseName(phase) == "Running" <==> phase == Running
    ensures PhaseName(phase) == "Succeeded" <==> phase == Succeeded
    ensures PhaseName(phase) == "Failed" <==> phase == Failed
    ensures PhaseName(phase) == "" <==> phase == NoPhase
  {
    assert "Running"[0] == 'R' && "Pending"[0] == 'P' && "Failed"[0] == 'F' && "Succeeded"[0] == 'S';
  }
}
