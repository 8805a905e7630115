/** Which issues a report holds: exactly the faults of the value, each under its own code and path. */
module SchemaFaults {
  import opened Text
  import opened JsonValues
  import opened SchemaMeaning
  import opened SchemaChecker
  import opened SchemaReading
  import opened SchemaTheory

  lemma TakenFrom(all: seq<Issue>, limit: Limit, issue: Issue)
    requires issue in Take(all, limit)
    ensures issue in all
  {
  }

  lemma NothingCut(all: seq<Issue>, limit: Limit)
    requires !Full(Take(all, limit), limit)
    ensures Take(all, limit) == all
  {
  }

  lemma RoomNotFull(issues: seq<Issue>, more: seq<Issue>, limit: Limit)
    requires !Full(issues + more, limit)
    ensures !Full(more, Room(issues, limit))
  {
  }

  lemma WithinFull(issues: seq<Issue>, run: seq<Issue>, limit: Limit)
    requires issues <= run && !Full(run, limit)
    ensures !Full(issues, limit) && forall issue :: issue in issues ==> issue in run
  {
  }

  // ---------------------------------------------------------------- the steps of a fault

  lemma FaultOfReference(root: Json, h: nat, value: Json, schema: Json, path: Path, issue: Issue)
    requires NodeOf(schema).Reference?
    ensures var target := Target(root, NodeOf(schema).pointer);
      Fault(root, h + 1, value, schema, path, issue) <==>
      if target.None? then issue == Issue(path, UnresolvedRef) else Fault(root, h, value, target.value, path, issue)
  {
    hide NodeOf, Target, Fault, TargetFault, RefersTo, Offers, IsPlain;
    NodeReads(schema);
    FaultIfRefers(root, h, value, schema, NodeOf(schema).pointer, path, issue);
    FaultOfTarget(root, h, value, NodeOf(schema).pointer, path, issue);
  }

  lemma FaultOfTarget(root: Json, h: nat, value: Json, pointer: string, path: Path, issue: Issue)
    ensures var target := Target(root, pointer);
      TargetFault(root, h, value, pointer, path, issue) <==>
      if target.None? then issue == Issue(path, UnresolvedRef) else Fault(root, h, value, target.value, path, issue)
  {
    hide Leads, Target, Fault;
    TargetLeads(root, pointer);
    if Target(root, pointer).Some? {
      assert Leads(root, pointer, Target(root, pointer).value);
    }
  }

  lemma FaultOfAlternatives(root: Json, h: nat, value: Json, schema: Json, path: Path, issue: Issue)
    requires NodeOf(schema).Alternatives?
    ensures Fault(root, h + 1, value, schema, path, issue) <==>
            issue == Issue(path, OneOfMismatch) && Mismatch(root, h, value, NodeOf(schema).options)
  {
    hide NodeOf, Fault, Mismatch, RefersTo, Offers, IsPlain;
    NodeReads(schema);
    FaultIfOffers(root, h, value, schema, NodeOf(schema).options, path, issue);
  }

  lemma FaultOfKeywords(root: Json, h: nat, value: Json, schema: Json, path: Path, issue: Issue)
    requires NodeOf(schema).Keywords?
    ensures Fault(root, h + 1, value, schema, path, issue) <==> NodeFault(root, h, value, schema, path, issue)
  {
    hide NodeOf, Fault, NodeFault, RefersTo, Offers, IsPlain, KeywordsOf;
    NodeReads(schema);
    FaultIfPlain(root, h, value, schema, path, issue);
  }

  // ---------------------------------------------------------------- what is reported is a fault

  /** Under every limit, each reported issue is a fault of the value. */
  lemma {:induction false} ReportedIsFault(
    root: Json, depth: nat, value: Json, schema: Json, path: Path, limit: Limit, issue: Issue)
    requires Report(root, depth, value, schema, path, limit).Some?
    requires issue in Report(root, depth, value, schema, path, limit).value
    ensures Fault(root, depth, value, schema, path, issue)
    decreases depth, 1, 0
  {
    hide Report, NodeOf, Fault, Target, Take, Matches, Mismatch, KeywordRun, KeywordsOf, NodeFault;
    NoDepth(root, value, schema, path, limit);
    var node, h := NodeOf(schema), depth - 1;
    if node.Reference? {
      RunOfReference(root, h, value, schema, path, limit);
      FaultOfReference(root, h, value, schema, path, issue);
      var target := Target(root, node.pointer);
      if target.Some? {
        ReportedIsFault(root, h, value, target.value, path, limit, issue);
      } else {
        TakenFrom([Issue(path, UnresolvedRef)], limit, issue);
      }
    } else if node.Alternatives? {
      RunOfAlternatives(root, h, value, schema, path, limit);
      FaultOfAlternatives(root, h, value, schema, path, issue);
      MatchesDecide(root, h, value, node.options, path);
      var matches := Matches(root, h, value, node.options, |node.options|, path);
      TakenFrom(When(matches.value != 1, path, OneOfMismatch), limit, issue);
    } else {
      RunOfKeywords(root, h, value, schema, path, limit);
      FaultOfKeywords(root, h, value, schema, path, issue);
      NodeReads(schema);
      KeywordIsFault(root, h, value, schema, path, limit, issue);
    }
  }

  lemma {:induction false} KeywordIsFault(
    root: Json, depth: nat, value: Json, schema: Json, path: Path, limit: Limit, issue: Issue)
    requires KeywordRun(root, depth, value, KeywordsOf(schema), path, limit).Some?
    requires issue in KeywordRun(root, depth, value, KeywordsOf(schema), path, limit).value
    ensures NodeFault(root, depth, value, schema, path, issue)
    decreases depth, 4, 0
  {
    hide KeywordsOf, TypeOk, TypeHolds, ShallowIssues, Take, ChildRun, LocalFault, ChildFault;
    TypeReads(value, schema);
    var node := KeywordsOf(schema);
    if !TypeHolds(value, schema) {
      WrongTypeReads(value, schema, path, issue);
      TakenFrom([Issue(path, WrongType(node.expected.value))], limit, issue);
    } else {
      var shallow := Take(ShallowIssues(value, node, path), limit);
      TakenFrom(ChildRun(root, depth, value, node, path, limit, shallow).value, limit, issue);
      if issue in shallow {
        TakenFrom(ShallowIssues(value, node, path), limit, issue);
        ShallowReads(value, schema, path, issue);
      } else {
        ChildIsFault(root, depth, value, schema, path, limit, shallow, issue);
      }
    }
  }

  lemma {:induction false} ChildIsFault(
    root: Json, depth: nat, value: Json, schema: Json, path: Path, limit: Limit, issues: seq<Issue>, issue: Issue)
    requires ChildRun(root, depth, value, KeywordsOf(schema), path, limit, issues).Some?
    requires issue in ChildRun(root, depth, value, KeywordsOf(schema), path, limit, issues).value
    requires issue !in issues
    ensures ChildFault(root, depth, value, schema, path, issue)
    decreases depth, 3, 0
  {
    hide KeywordsOf, PropertyRun, ItemRun, Fault, ChildAt;
    var node := KeywordsOf(schema);
    if value.Obj? {
      var j, v := PropertyIsFault(root, depth, value, node, 0, path, limit, issues, issue);
      PropertyIsChild(value, schema, j, v, node.properties[j].value);
    } else if value.Arr? && node.items.Some? {
      var j := ItemIsFault(root, depth, value, node, 0, path, limit, issues, issue);
      ItemIsChild(value, schema, j, value.items[j], node.items.value);
    }
  }

  lemma {:induction false} PropertyIsFault(
    root: Json, depth: nat, value: Json, node: Node, i: nat, path: Path, limit: Limit, issues: seq<Issue>, issue: Issue)
    returns (j: nat, v: Json)
    requires node.Keywords? && value.Obj? && i <= |node.properties|
    requires PropertyRun(root, depth, value.fields, node.properties, i, path, limit, issues).Some?
    requires issue in PropertyRun(root, depth, value.fields, node.properties, i, path, limit, issues).value
    requires issue !in issues
    ensures j < |node.properties| && PropertyOf(value, node, j, v, node.properties[j].value)
    ensures Fault(root, depth, v, node.properties[j].value, path + [Key(node.properties[j].key)], issue)
    decreases depth, 2, |node.properties| - i
  {
    hide Report, Fault, Lookup, Room, Full;
    var property := node.properties[i];
    var child := Lookup(value.fields, property.key);
    if child.None? {
      j, v := PropertyIsFault(root, depth, value, node, i + 1, path, limit, issues, issue);
    } else {
      var at := path + [Key(property.key)];
      var more := Report(root, depth, child.value, property.value, at, Room(issues, limit)).value;
      if issue in more {
        ReportedIsFault(root, depth, child.value, property.value, at, Room(issues, limit), issue);
        j, v := i, child.value;
      } else {
        j, v := PropertyIsFault(root, depth, value, node, i + 1, path, limit, issues + more, issue);
      }
    }
  }

  lemma {:induction false} ItemIsFault(
    root: Json, depth: nat, value: Json, node: Node, i: nat, path: Path, limit: Limit, issues: seq<Issue>, issue: Issue)
    returns (j: nat)
    requires node.Keywords? && value.Arr? && node.items.Some? && i <= |value.items|
    requires ItemRun(root, depth, value.items, node.items.value, i, path, limit, issues).Some?
    requires issue in ItemRun(root, depth, value.items, node.items.value, i, path, limit, issues).value
    requires issue !in issues
    ensures j < |value.items| && Fault(root, depth, value.items[j], node.items.value, path + [Index(j)], issue)
    decreases depth, 2, |value.items| - i
  {
    hide Report, Fault, Room, Full;
    var schema, at := node.items.value, path + [Index(i)];
    var more := Report(root, depth, value.items[i], schema, at, Room(issues, limit)).value;
    if issue in more {
      ReportedIsFault(root, depth, value.items[i], schema, at, Room(issues, limit), issue);
      j := i;
    } else {
      j := ItemIsFault(root, depth, value, node, i + 1, path, limit, issues + more, issue);
    }
  }

  // ---------------------------------------------------------------- what is a fault is reported

  /** A report that stays below its limit misses no fault, however long the fault's derivation is. */
  lemma {:induction false} FaultIsReported(
    root: Json, depth: nat, h: nat, value: Json, schema: Json, path: Path, limit: Limit, issue: Issue)
    requires Report(root, depth, value, schema, path, limit).Some?
    requires !Full(Report(root, depth, value, schema, path, limit).value, limit)
    requires Fault(root, h, value, schema, path, issue)
    ensures issue in Report(root, depth, value, schema, path, limit).value
    decreases depth, 1, 0
  {
    hide Report, NodeOf, Fault, Target, Take, Matches, Mismatch, KeywordRun, KeywordsOf, NodeFault, Full;
    NoDepth(root, value, schema, path, limit);
    NoHeight(root, value, schema, path, issue);
    var node, d, k := NodeOf(schema), depth - 1, h - 1;
    if node.Reference? {
      RunOfReference(root, d, value, schema, path, limit);
      FaultOfReference(root, k, value, schema, path, issue);
      var target := Target(root, node.pointer);
      if target.Some? {
        FaultIsReported(root, d, k, value, target.value, path, limit, issue);
      } else {
        NothingCut([Issue(path, UnresolvedRef)], limit);
      }
    } else if node.Alternatives? {
      RunOfAlternatives(root, d, value, schema, path, limit);
      FaultOfAlternatives(root, k, value, schema, path, issue);
      MismatchIsCounted(root, d, k, value, node.options, path);
      var matches := Matches(root, d, value, node.options, |node.options|, path);
      NothingCut(When(matches.value != 1, path, OneOfMismatch), limit);
    } else {
      RunOfKeywords(root, d, value, schema, path, limit);
      FaultOfKeywords(root, k, value, schema, path, issue);
      NodeReads(schema);
      KeywordIsReported(root, d, k, value, schema, path, limit, issue);
    }
  }

  lemma NoHeight(root: Json, value: Json, schema: Json, path: Path, issue: Issue)
    ensures !Fault(root, 0, value, schema, path, issue)
  {
  }

  lemma MismatchIsCounted(root: Json, depth: nat, h: nat, value: Json, options: seq<Json>, path: Path)
    requires Matches(root, depth, value, options, |options|, path).Some? && Mismatch(root, h, value, options)
    ensures Matches(root, depth, value, options, |options|, path).value != 1
  {
    hide Matches, Mismatch, OneMatch, Apart;
    MatchesDecide(root, depth, value, options, path);
    HeightsApart(root, depth, h);
    HeightsApart(root, h, depth);
    NotOneAndOther(root, depth, h, value, options);
  }

  lemma HeightsApart(root: Json, h: nat, k: nat)
    ensures Apart(root, h, k)
  {
    hide Satisfies, Violates;
    forall v, s | Satisfies(root, h, v, s) ensures !Violates(root, k, v, s) {
      NotBoth(root, h, k, v, s);
    }
  }

  lemma {:induction false} KeywordIsReported(
    root: Json, depth: nat, h: nat, value: Json, schema: Json, path: Path, limit: Limit, issue: Issue)
    requires KeywordRun(root, depth, value, KeywordsOf(schema), path, limit).Some?
    requires !Full(KeywordRun(root, depth, value, KeywordsOf(schema), path, limit).value, limit)
    requires NodeFault(root, h, value, schema, path, issue)
    ensures issue in KeywordRun(root, depth, value, KeywordsOf(schema), path, limit).value
    decreases depth, 4, 0
  {
    hide KeywordsOf, TypeOk, TypeHolds, ShallowIssues, Take, ChildRun, LocalFault, ChildFault, Full;
    TypeReads(value, schema);
    var node := KeywordsOf(schema);
    if !TypeHolds(value, schema) {
      WrongTypeReads(value, schema, path, issue);
      NothingCut([Issue(path, WrongType(node.expected.value))], limit);
    } else {
      var shallow := ShallowIssues(value, node, path);
      NothingCut(ChildRun(root, depth, value, node, path, limit, Take(shallow, limit)).value, limit);
      ChildIsReported(root, depth, h, value, schema, path, limit, Take(shallow, limit), issue);
      NothingCut(shallow, limit);
      if LocalFault(value, schema, path, issue) {
        NoWrongType(value, schema, path, issue);
        ShallowReads(value, schema, path, issue);
      }
    }
  }

  lemma {:induction false} ChildIsReported(
    root: Json, depth: nat, h: nat, value: Json, schema: Json, path: Path, limit: Limit, issues: seq<Issue>,
    issue: Issue)
    requires ChildRun(root, depth, value, KeywordsOf(schema), path, limit, issues).Some?
    requires !Full(ChildRun(root, depth, value, KeywordsOf(schema), path, limit, issues).value, limit)
    ensures var run := ChildRun(root, depth, value, KeywordsOf(schema), path, limit, issues).value;
      && issues <= run && !Full(issues, limit)
      && (ChildFault(root, h, value, schema, path, issue) ==> issue in run)
    decreases depth, 3, 0
  {
    hide KeywordsOf, PropertyRun, ItemRun, Fault, ChildAt;
    var node := KeywordsOf(schema);
    if value.Obj? {
      PropertyIsReported(root, depth, h, value, node, 0, path, limit, issues, issue);
      if ChildFault(root, h, value, schema, path, issue) {
        var segment, v, s :| ChildAt(value, schema, segment, v, s) && Fault(root, h, v, s, path + [segment], issue);
        OnlyKeys(value, schema, segment, v, s);
        var j := ChildIsProperty(value, schema, segment.name, v, s);
      }
    } else if value.Arr? && node.items.Some? {
      ItemIsReported(root, depth, h, value, node, 0, path, limit, issues, issue);
      if ChildFault(root, h, value, schema, path, issue) {
        var segment, v, s :| ChildAt(value, schema, segment, v, s) && Fault(root, h, v, s, path + [segment], issue);
        OnlyKeys(value, schema, segment, v, s);
        ItemReads(value, schema, segment.i, v, s);
      }
    } else if ChildFault(root, h, value, schema, path, issue) {
      var segment, v, s :| ChildAt(value, schema, segment, v, s) && Fault(root, h, v, s, path + [segment], issue);
      NoChild(value, schema, segment, v, s);
    }
  }

  lemma OnlyKeys(value: Json, schema: Json, segment: Segment, v: Json, s: Json)
    requires ChildAt(value, schema, segment, v, s)
    ensures value.Obj? <==> segment.Key?
  {
  }

  lemma {:induction false} PropertyIsReported(
    root: Json, depth: nat, h: nat, value: Json, node: Node, i: nat, path: Path, limit: Limit, issues: seq<Issue>,
    issue: Issue)
    requires node.Keywords? && value.Obj? && i <= |node.properties|
    requires PropertyRun(root, depth, value.fields, node.properties, i, path, limit, issues).Some?
    requires !Full(PropertyRun(root, depth, value.fields, node.properties, i, path, limit, issues).value, limit)
    ensures var run := PropertyRun(root, depth, value.fields, node.properties, i, path, limit, issues).value;
      && issues <= run
      && forall j, v, s :: i <= j < |node.properties| && PropertyOf(value, node, j, v, s) ==>
           Fault(root, h, v, s, path + [Key(node.properties[j].key)], issue) ==> issue in run
    decreases depth, 2, |node.properties| - i
  {
    hide Report, Fault, Lookup, Room, Full;
    if i < |node.properties| {
      var property := node.properties[i];
      var child := Lookup(value.fields, property.key);
      if child.None? {
        PropertyIsReported(root, depth, h, value, node, i + 1, path, limit, issues, issue);
      } else {
        var at := path + [Key(property.key)];
        var more := Report(root, depth, child.value, property.value, at, Room(issues, limit)).value;
        PropertyIsReported(root, depth, h, value, node, i + 1, path, limit, issues + more, issue);
        var run := PropertyRun(root, depth, value.fields, node.properties, i, path, limit, issues).value;
        if Fault(root, h, child.value, property.value, at, issue) {
          WithinFull(issues + more, run, limit);
          RoomNotFull(issues, more, limit);
          FaultIsReported(root, depth, h, child.value, property.value, at, Room(issues, limit), issue);
          assert issue in issues + more;
        }
      }
    }
  }

  lemma {:induction false} ItemIsReported(
    root: Json, depth: nat, h: nat, value: Json, node: Node, i: nat, path: Path, limit: Limit, issues: seq<Issue>,
    issue: Issue)
    requires node.Keywords? && value.Arr? && node.items.Some? && i <= |value.items|
    requires ItemRun(root, depth, value.items, node.items.value, i, path, limit, issues).Some?
    requires !Full(ItemRun(root, depth, value.items, node.items.value, i, path, limit, issues).value, limit)
    ensures var run := ItemRun(root, depth, value.items, node.items.value, i, path, limit, issues).value;
      && issues <= run
      && forall j :: i <= j < |value.items| ==>
           Fault(root, h, value.items[j], node.items.value, path + [Index(j)], issue) ==> issue in run
    decreases depth, 2, |value.items| - i
  {
    hide Report, Fault, Room, Full;
    if i < |value.items| {
      var schema, at := node.items.value, path + [Index(i)];
      var more := Report(root, depth, value.items[i], schema, at, Room(issues, limit)).value;
      ItemIsReported(root, depth, h, value, node, i + 1, path, limit, issues + more, issue);
      var run := ItemRun(root, depth, value.items, schema, i, path, limit, issues).value;
      if Fault(root, h, value.items[i], schema, at, issue) {
        WithinFull(issues + more, run, limit);
        RoomNotFull(issues, more, limit);
        FaultIsReported(root, depth, h, value.items[i], schema, at, Room(issues, limit), issue);
        assert issue in issues + more;
      }
    }
  }

  /** A report that stays below its limit holds exactly the faults of the value. */
  lemma ReportIsFaults(root: Json, depth: nat, value: Json, schema: Json, path: Path, limit: Limit, issue: Issue)
    requires Report(root, depth, value, schema, path, limit).Some?
    ensures var report := Report(root, depth, value, schema, path, limit).value;
      && (issue in report ==> Faulty(root, value, schema, path, issue))
      && (!Full(report, limit) && Faulty(root, value, schema, path, issue) ==> issue in report)
  {
    hide Report, Fault, Full, Faulty;
    var report := Report(root, depth, value, schema, path, limit).value;
    if issue in report {
      FaultyByReport(root, depth, value, schema, path, limit, issue);
    }
    if !Full(report, limit) && Faulty(root, value, schema, path, issue) {
      FaultyIsReported(root, depth, value, schema, path, limit, issue);
    }
  }

  lemma FaultyByReport(root: Json, depth: nat, value: Json, schema: Json, path: Path, limit: Limit, issue: Issue)
    requires Report(root, depth, value, schema, path, limit).Some?
    requires issue in Report(root, depth, value, schema, path, limit).value
    ensures Faulty(root, value, schema, path, issue)
  {
    hide Report, Fault;
    ReportedIsFault(root, depth, value, schema, path, limit, issue);
  }

  lemma FaultyIsReported(root: Json, depth: nat, value: Json, schema: Json, path: Path, limit: Limit, issue: Issue)
    requires Report(root, depth, value, schema, path, limit).Some?
    requires !Full(Report(root, depth, value, schema, path, limit).value, limit)
    requires Faulty(root, value, schema, path, issue)
    ensures issue in Report(root, depth, value, schema, path, limit).value
  {
    hide Report, Fault, Full;
    var h: nat :| Fault(root, h, value, schema, path, issue);
    FaultIsReported(root, depth, h, value, schema, path, limit, issue);
  }

  /**
   `_advisory_schema_issues` as its callers use it, with the stack depth it may use; None is the
   interpreter's recursion error.  A report is empty exactly for conforming values, holds nothing but
   faults and below its limit all of them, and is the beginning of the unlimited report wherever that returns.
   */
  method AdvisorySchemaIssues(value: Json, schema: Json, depth: nat, limit: nat) returns (r: Option<seq<Issue>>)
    ensures r == Report(schema, depth, value, schema, [], Some(limit))
    ensures r.Some? && limit >= 1 ==> (r.value == [] <==> Conforms(schema, value, schema))
    ensures r.Some? ==> forall issue :: issue in r.value ==> Faulty(schema, value, schema, [], issue)
    ensures r.Some? && |r.value| < limit ==>
              forall issue :: Faulty(schema, value, schema, [], issue) ==> issue in r.value
    ensures var unlimited := Report(schema, depth, value, schema, [], None);
      unlimited.Some? ==> r == Some(Take(unlimited.value, Some(limit)))
  {
    hide Report, Conforms, Faulty;
    r := CheckNode(schema, depth, value, schema, [], limit);
    if r.Some? && limit >= 1 {
      CleanIffConforms(schema, depth, value, schema, [], Some(limit));
    }
    if r.Some? {
      forall issue
        ensures issue in r.value ==> Faulty(schema, value, schema, [], issue)
        ensures |r.value| < limit && Faulty(schema, value, schema, [], issue) ==> issue in r.value
      {
        ReportIsFaults(schema, depth, value, schema, [], Some(limit), issue);
      }
    }
    if Report(schema, depth, value, schema, [], None).Some? {
      LimitsAgree(schema, depth, value, schema, [], Some(limit), None);
    }
  }
}
