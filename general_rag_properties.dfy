/** What loading and lookup of the GENERAL_RAG table guarantee, proved about
    the specification functions that the methods of `LlmData.GeneralRag` are
    verified against. */
module GeneralRagProperties {
  import opened Wrappers
  import opened JsonModel
  import opened Similarity
  import opened TextLines
  import opened LlmData

  // ---------------------------------------------------------------------------
  // Grouped documents: order
  // ---------------------------------------------------------------------------

  lemma ConcatAssociative(a: Option<seq<Json>>, b: Option<seq<Json>>, c: Option<seq<Json>>)
    ensures Concat(Concat(a, b), c) == Concat(a, Concat(b, c))
  {
    if a.Some? && b.Some? && c.Some? {
      assert (a.value + b.value) + c.value == a.value + (b.value + c.value);
    }
  }

  lemma ConcatEmpty(a: Option<seq<Json>>)
    ensures Concat(a, Some([])) == a
  {
    if a.Some? {
      assert a.value + [] == a.value;
    }
  }

  /** One trigger yields at most one record, `{q: norm(trigger), a: answer}`,
      and yields it exactly when both are non-empty; a trigger that is not
      text raises. */
  lemma TriggerRecordMeaning(trig: Json, ans: Json, norm: Normalizer)
    ensures TriggerRecord(trig, ans, norm).Some? <==> trig.JStr?
    ensures var r := TriggerRecord(trig, ans, norm);
      r.Some? ==> |r.value| <= 1 && (forall x :: x in r.value ==> x == Record(norm(trig.s, false), ans))
    ensures var r := TriggerRecord(trig, ans, norm);
      r.Some? ==> (r.value != [] <==> norm(trig.s, false) != "" && Truthy(ans))
  {
  }

  /** Dropping the last element of `first + second` drops it from `second`. */
  lemma AppendDropLast<T>(first: seq<T>, second: seq<T>)
    requires second != []
    ensures (first + second)[..|first + second| - 1] == first + second[..|second| - 1]
    ensures (first + second)[|first + second| - 1] == second[|second| - 1]
  {
  }

  /** Trigger order is kept: the records of `first` come before those of `second`. */
  lemma {:induction false} TriggerRecordsAppend(first: seq<Json>, second: seq<Json>, ans: Json, norm: Normalizer)
    ensures TriggerRecords(first + second, ans, norm) == Concat(TriggerRecords(first, ans, norm), TriggerRecords(second, ans, norm))
    decreases |second|
  {
    if second == [] {
      assert first + second == first;
      ConcatEmpty(TriggerRecords(first, ans, norm));
    } else {
      var init := second[..|second| - 1];
      AppendDropLast(first, second);
      TriggerRecordsAppend(first, init, ans, norm);
      ConcatAssociative(TriggerRecords(first, ans, norm), TriggerRecords(init, ans, norm), TriggerRecord(second[|second| - 1], ans, norm));
    }
  }

  /** Entry order is kept: the records of `first` come before those of `second`. */
  lemma {:induction false} EntriesRecordsAppend(first: seq<Json>, second: seq<Json>, norm: Normalizer)
    ensures EntriesRecords(first + second, norm) == Concat(EntriesRecords(first, norm), EntriesRecords(second, norm))
    decreases |second|
  {
    if second == [] {
      assert first + second == first;
      ConcatEmpty(EntriesRecords(first, norm));
    } else {
      var init := second[..|second| - 1];
      AppendDropLast(first, second);
      EntriesRecordsAppend(first, init, norm);
      ConcatAssociative(EntriesRecords(first, norm), EntriesRecords(init, norm), EntryRecords(second[|second| - 1], norm));
    }
  }

  /** Group order is kept: the records of earlier groups come first. */
  lemma {:induction false} GroupsRecordsAppend(first: seq<(string, Json)>, second: seq<(string, Json)>, norm: Normalizer)
    ensures GroupsRecords(first + second, norm) == Concat(GroupsRecords(first, norm), GroupsRecords(second, norm))
    decreases |second|
  {
    if second == [] {
      assert first + second == first;
      ConcatEmpty(GroupsRecords(first, norm));
    } else {
      var init := second[..|second| - 1];
      AppendDropLast(first, second);
      GroupsRecordsAppend(first, init, norm);
      ConcatAssociative(GroupsRecords(first, norm), GroupsRecords(init, norm), GroupRecords(second[|second| - 1], norm));
    }
  }

  // ---------------------------------------------------------------------------
  // Grouped documents: groups that are not lists
  // ---------------------------------------------------------------------------

  /** The groups whose value is a list, in order. */
  function ListGroups(groups: seq<(string, Json)>): (r: seq<(string, Json)>)
    ensures forall i :: 0 <= i < |r| ==> r[i].1.JArr?
    decreases |groups|
  {
    if groups == [] then []
    else
      var last := groups[|groups| - 1];
      ListGroups(groups[..|groups| - 1]) + (if last.1.JArr? then [last] else [])
  }

  /** Dropping the groups whose value is not a list changes nothing. */
  lemma {:induction false} NonListGroupsSkipped(groups: seq<(string, Json)>, norm: Normalizer)
    ensures GroupsRecords(groups, norm) == GroupsRecords(ListGroups(groups), norm)
    decreases |groups|
  {
    if groups != [] {
      var init := groups[..|groups| - 1];
      var last := groups[|groups| - 1];
      NonListGroupsSkipped(init, norm);
      GroupsRecordsAppend(ListGroups(init), if last.1.JArr? then [last] else [], norm);
      if last.1.JArr? {
        assert [last][..0] == [];
      } else {
        assert ListGroups(init) + [] == ListGroups(init);
        assert GroupsRecords(init, norm).Some? ==> GroupsRecords(init, norm).value + [] == GroupsRecords(init, norm).value;
      }
    }
  }

  // ---------------------------------------------------------------------------
  // Grouped documents: how many records
  // ---------------------------------------------------------------------------

  /** Whether a trigger of an entry whose answer is `ans` yields a record. */
  predicate Kept(trig: Json, ans: Json, norm: Normalizer)
  {
    trig.JStr? && norm(trig.s, false) != "" && Truthy(ans)
  }

  /** The number of triggers in `trigs` that are kept. */
  function KeptCount(trigs: seq<Json>, ans: Json, norm: Normalizer): nat
  {
    if trigs == [] then 0 else (if Kept(trigs[0], ans, norm) then 1 else 0) + KeptCount(trigs[1..], ans, norm)
  }

  /** The number of kept (entry, trigger) pairs of one entry. */
  function EntryPairs(entry: Json, norm: Normalizer): nat
  {
    if !entry.JObj? then 0
    else
      match Iterated(Get(entry.fields, "triggers", JArr([])))
      case None => 0
      case Some(trigs) => KeptCount(trigs, Get(entry.fields, "answer", JStr("")), norm)
  }

  /** The number of kept (entry, trigger) pairs of a list of entries. */
  function EntriesPairs(entries: seq<Json>, norm: Normalizer): nat
  {
    if entries == [] then 0 else EntryPairs(entries[0], norm) + EntriesPairs(entries[1..], norm)
  }

  /** The number of kept (entry, trigger) pairs over the groups that are lists. */
  function PairCount(groups: seq<(string, Json)>, norm: Normalizer): nat
  {
    if groups == [] then 0
    else (if groups[0].1.JArr? then EntriesPairs(groups[0].1.elems, norm) else 0) + PairCount(groups[1..], norm)
  }

  lemma {:induction false} KeptCountAppend(first: seq<Json>, second: seq<Json>, ans: Json, norm: Normalizer)
    ensures KeptCount(first + second, ans, norm) == KeptCount(first, ans, norm) + KeptCount(second, ans, norm)
    decreases |first|
  {
    if first == [] {
      assert first + second == second;
    } else {
      assert (first + second)[1..] == first[1..] + second;
      KeptCountAppend(first[1..], second, ans, norm);
    }
  }

  lemma {:induction false} EntriesPairsAppend(first: seq<Json>, second: seq<Json>, norm: Normalizer)
    ensures EntriesPairs(first + second, norm) == EntriesPairs(first, norm) + EntriesPairs(second, norm)
    decreases |first|
  {
    if first == [] {
      assert first + second == second;
    } else {
      assert (first + second)[1..] == first[1..] + second;
      EntriesPairsAppend(first[1..], second, norm);
    }
  }

  lemma {:induction false} PairCountAppend(first: seq<(string, Json)>, second: seq<(string, Json)>, norm: Normalizer)
    ensures PairCount(first + second, norm) == PairCount(first, norm) + PairCount(second, norm)
    decreases |first|
  {
    if first == [] {
      assert first + second == second;
    } else {
      assert (first + second)[1..] == first[1..] + second;
      PairCountAppend(first[1..], second, norm);
    }
  }

  /** One record per kept trigger. */
  lemma {:induction false} TriggerRecordsCount(trigs: seq<Json>, ans: Json, norm: Normalizer)
    requires TriggerRecords(trigs, ans, norm).Some?
    ensures |TriggerRecords(trigs, ans, norm).value| == KeptCount(trigs, ans, norm)
    decreases |trigs|
  {
    if trigs != [] {
      var init := trigs[..|trigs| - 1];
      var last := trigs[|trigs| - 1];
      var a, b := TriggerRecords(init, ans, norm), TriggerRecord(last, ans, norm);
      assert a.Some? && b.Some? && |TriggerRecords(trigs, ans, norm).value| == |a.value| + |b.value| by {
        ConcatSizes(a, b);
      }
      assert |a.value| == KeptCount(init, ans, norm) by { TriggerRecordsCount(init, ans, norm); }
      assert |b.value| == KeptCount([last], ans, norm) by { assert [last][1..] == []; }
      assert KeptCount(trigs, ans, norm) == KeptCount(init, ans, norm) + KeptCount([last], ans, norm) by {
        KeptCountAppend(init, [last], ans, norm);
        assert init + [last] == trigs;
      }
    }
  }

  /** One record per kept (entry, trigger) pair of a list of entries. */
  lemma {:induction false} EntriesRecordsCount(entries: seq<Json>, norm: Normalizer)
    requires EntriesRecords(entries, norm).Some?
    ensures |EntriesRecords(entries, norm).value| == EntriesPairs(entries, norm)
    decreases |entries|
  {
    if entries != [] {
      var init := entries[..|entries| - 1];
      var last := entries[|entries| - 1];
      var a, b := EntriesRecords(init, norm), EntryRecords(last, norm);
      assert a.Some? && b.Some? && |EntriesRecords(entries, norm).value| == |a.value| + |b.value| by {
        ConcatSizes(a, b);
      }
      assert |a.value| == EntriesPairs(init, norm) by { EntriesRecordsCount(init, norm); }
      assert |b.value| == EntryPairs(last, norm) by { EntryRecordsCount(last, norm); }
      assert EntriesPairs(entries, norm) == EntriesPairs(init, norm) + EntryPairs(last, norm) by {
        EntriesPairsAppend(init, [last], norm);
        assert init + [last] == entries;
      }
    }
  }

  /** A successful concatenation has both parts, and their lengths add up. */
  lemma ConcatSizes(a: Option<seq<Json>>, b: Option<seq<Json>>)
    requires Concat(a, b).Some?
    ensures a.Some? && b.Some? && |Concat(a, b).value| == |a.value| + |b.value|
  {
  }

  /** One record per kept trigger of one entry. */
  lemma EntryRecordsCount(entry: Json, norm: Normalizer)
    requires EntryRecords(entry, norm).Some?
    ensures |EntryRecords(entry, norm).value| == EntryPairs(entry, norm)
  {
    var trigs := Iterated(Get(entry.fields, "triggers", JArr([]))).value;
    TriggerRecordsCount(trigs, Get(entry.fields, "answer", JStr("")), norm);
  }

  /** Grouped load: the number of records is the number of (entry, trigger)
      pairs, over the groups that are lists, whose normalised trigger and
      answer are both non-empty. */
  lemma {:induction false} GroupedRecordCount(groups: seq<(string, Json)>, norm: Normalizer)
    requires GroupsRecords(groups, norm).Some?
    ensures |GroupsRecords(groups, norm).value| == PairCount(groups, norm)
    decreases |groups|
  {
    if groups != [] {
      var init := groups[..|groups| - 1];
      var last := groups[|groups| - 1];
      GroupedRecordCount(init, norm);
      if last.1.JArr? {
        EntriesRecordsCount(last.1.elems, norm);
      }
      PairCountAppend(init, [last], norm);
      assert init + [last] == groups;
    }
  }

  // ---------------------------------------------------------------------------
  // Grouped documents: what each record holds
  // ---------------------------------------------------------------------------

  /** `x` is the record of trigger `trig` of an entry whose answer is `ans`:
      `q` is the normalised trigger, `a` the answer as written, both non-empty. */
  ghost predicate FromTrigger(x: Json, trig: Json, ans: Json, norm: Normalizer)
  {
    Kept(trig, ans, norm) && x == Record(norm(trig.s, false), ans)
  }

  /** `x` is the record of one of the triggers of `entry`. */
  ghost predicate FromEntry(x: Json, entry: Json, norm: Normalizer)
  {
    && entry.JObj?
    && Iterated(Get(entry.fields, "triggers", JArr([]))).Some?
    && var trigs := Iterated(Get(entry.fields, "triggers", JArr([]))).value;
       exists j :: 0 <= j < |trigs| && FromTrigger(x, trigs[j], Get(entry.fields, "answer", JStr("")), norm)
  }

  /** `x` is the record of one trigger of one entry of one group that is a list. */
  ghost predicate FromGroups(x: Json, groups: seq<(string, Json)>, norm: Normalizer)
  {
    exists g, k :: 0 <= g < |groups| && groups[g].1.JArr? && 0 <= k < |groups[g].1.elems|
      && FromEntry(x, groups[g].1.elems[k], norm)
  }

  lemma {:induction false} TriggerRecordsFrom(trigs: seq<Json>, ans: Json, norm: Normalizer)
    requires TriggerRecords(trigs, ans, norm).Some?
    ensures forall x :: x in TriggerRecords(trigs, ans, norm).value ==>
      exists j :: 0 <= j < |trigs| && FromTrigger(x, trigs[j], ans, norm)
    decreases |trigs|
  {
    if trigs != [] {
      var init := trigs[..|trigs| - 1];
      TriggerRecordsFrom(init, ans, norm);
      forall x | x in TriggerRecords(trigs, ans, norm).value
        ensures exists j :: 0 <= j < |trigs| && FromTrigger(x, trigs[j], ans, norm)
      {
        if x in TriggerRecords(init, ans, norm).value {
          var j :| 0 <= j < |init| && FromTrigger(x, init[j], ans, norm);
          assert trigs[j] == init[j];
        } else {
          assert FromTrigger(x, trigs[|trigs| - 1], ans, norm);
        }
      }
    }
  }

  lemma {:induction false} EntriesRecordsFrom(entries: seq<Json>, norm: Normalizer)
    requires EntriesRecords(entries, norm).Some?
    ensures forall x :: x in EntriesRecords(entries, norm).value ==>
      exists k :: 0 <= k < |entries| && FromEntry(x, entries[k], norm)
    decreases |entries|
  {
    if entries != [] {
      var init := entries[..|entries| - 1];
      var last := entries[|entries| - 1];
      EntriesRecordsFrom(init, norm);
      var trigs := Iterated(Get(last.fields, "triggers", JArr([]))).value;
      TriggerRecordsFrom(trigs, Get(last.fields, "answer", JStr("")), norm);
      forall x | x in EntriesRecords(entries, norm).value
        ensures exists k :: 0 <= k < |entries| && FromEntry(x, entries[k], norm)
      {
        if x in EntriesRecords(init, norm).value {
          var k :| 0 <= k < |init| && FromEntry(x, init[k], norm);
          assert entries[k] == init[k];
        } else {
          assert FromEntry(x, entries[|entries| - 1], norm);
        }
      }
    }
  }

  /** Grouped load: every record is `{q: norm_text(trigger, False), a: answer}`
      for a trigger and the raw answer of one entry of a list-valued group, and
      both fields are non-empty. */
  lemma {:induction false} GroupedRecordsFrom(groups: seq<(string, Json)>, norm: Normalizer)
    requires GroupsRecords(groups, norm).Some?
    ensures forall x :: x in GroupsRecords(groups, norm).value ==> FromGroups(x, groups, norm)
    decreases |groups|
  {
    if groups != [] {
      var init := groups[..|groups| - 1];
      var last := groups[|groups| - 1];
      GroupedRecordsFrom(init, norm);
      if last.1.JArr? {
        EntriesRecordsFrom(last.1.elems, norm);
      }
      forall x | x in GroupsRecords(groups, norm).value
        ensures FromGroups(x, groups, norm)
      {
        if x in GroupsRecords(init, norm).value {
          var g, k :| 0 <= g < |init| && init[g].1.JArr? && 0 <= k < |init[g].1.elems|
            && FromEntry(x, init[g].1.elems[k], norm);
          assert groups[g] == init[g];
        } else {
          var k :| 0 <= k < |last.1.elems| && FromEntry(x, last.1.elems[k], norm);
          assert groups[|groups| - 1] == last;
        }
      }
    }
  }

  // ---------------------------------------------------------------------------
  // The line-delimited fallback
  // ---------------------------------------------------------------------------

  /** The lines `line.strip()` keeps, in order. */
  function NonBlank(lines: seq<string>): (r: seq<string>)
    ensures forall i :: 0 <= i < |r| ==> !IsBlank(r[i])
    decreases |lines|
  {
    if lines == [] then []
    else
      var last := lines[|lines| - 1];
      NonBlank(lines[..|lines| - 1]) + (if IsBlank(last) then [] else [last])
  }

  /** All or nothing: the fallback fails exactly when some non-blank line does
      not parse. */
  lemma {:induction false} FallbackAllOrNothing(lines: seq<string>, parse: Parser)
    ensures ParsedLines(lines, parse).None?
      <==> exists i :: 0 <= i < |lines| && !IsBlank(lines[i]) && parse(lines[i]).None?
    decreases |lines|
  {
    if lines != [] {
      var init := lines[..|lines| - 1];
      FallbackAllOrNothing(init, parse);
      if exists i :: 0 <= i < |init| && !IsBlank(init[i]) && parse(init[i]).None? {
        var i :| 0 <= i < |init| && !IsBlank(init[i]) && parse(init[i]).None?;
        assert lines[i] == init[i];
      }
      if exists i :: 0 <= i < |lines| && !IsBlank(lines[i]) && parse(lines[i]).None? {
        var i :| 0 <= i < |lines| && !IsBlank(lines[i]) && parse(lines[i]).None?;
        if i < |init| {
          assert init[i] == lines[i];
        }
      }
    }
  }

  /** When the fallback succeeds, the corpus holds one parsed value per
      non-blank line, in line order. */
  lemma {:induction false} FallbackParsesNonBlankLines(lines: seq<string>, parse: Parser)
    requires ParsedLines(lines, parse).Some?
    ensures var xs := ParsedLines(lines, parse).value;
      |xs| == |NonBlank(lines)| && forall k :: 0 <= k < |xs| ==> parse(NonBlank(lines)[k]) == Some(xs[k])
    decreases |lines|
  {
    if lines != [] {
      FallbackParsesNonBlankLines(lines[..|lines| - 1], parse);
    }
  }

  // ---------------------------------------------------------------------------
  // load
  // ---------------------------------------------------------------------------

  /** Loading a dict: either something raised and the corpus is empty, or the
      corpus is the flattened groups, one record per kept (entry, trigger)
      pair, each built from one trigger and the raw answer of its entry. */
  lemma GroupedLoad(txt: string, parse: Parser, norm: Normalizer, groups: seq<(string, Json)>)
    requires parse(txt) == Some(JObj(groups))
    ensures var items := LoadedItems(Some(txt), parse, norm);
      || (GroupsRecords(groups, norm).None? && items == [])
      || (&& GroupsRecords(groups, norm) == Some(items)
          && |items| == PairCount(groups, norm)
          && forall x :: x in items ==> FromGroups(x, groups, norm))
  {
    if GroupsRecords(groups, norm).Some? {
      GroupedRecordCount(groups, norm);
      GroupedRecordsFrom(groups, norm);
    }
  }

  /** A text that does not parse as a whole and whose lines are all blank
      (an empty file among them) gives an empty corpus. */
  lemma BlankTextGivesEmptyCorpus(txt: string, parse: Parser, norm: Normalizer)
    requires parse(txt).None?
    requires forall i :: 0 <= i < |SplitLines(txt)| ==> IsBlank(SplitLines(txt)[i])
    ensures LoadedItems(Some(txt), parse, norm) == []
  {
    var lines := SplitLines(txt);
    FallbackAllOrNothing(lines, parse);
    FallbackParsesNonBlankLines(lines, parse);
    NonBlankOfBlankLines(lines);
  }

  lemma {:induction false} NonBlankOfBlankLines(lines: seq<string>)
    requires forall i :: 0 <= i < |lines| ==> IsBlank(lines[i])
    ensures NonBlank(lines) == []
    decreases |lines|
  {
    if lines != [] {
      NonBlankOfBlankLines(lines[..|lines| - 1]);
    }
  }

  // ---------------------------------------------------------------------------
  // lookup
  // ---------------------------------------------------------------------------

  /** The scan keeps the first record with the greatest score: every score is
      at most the best one, every earlier record scores strictly less, a
      later equal score never displaces it, and no record is selected
      exactly when every score is 0. */
  lemma ScanFindsFirstMaximum(query: string, items: seq<Json>)
    requires Scan(query, items).Ok?
    ensures forall j :: 0 <= j < |items| ==> ItemScore(query, items[j]).Ok?
    ensures var best := Scan(query, items).value;
      && (forall j :: 0 <= j < |items| ==> ItemScore(query, items[j]).value <= best.score)
      && (best.index.None? <==> forall j :: 0 <= j < |items| ==> ItemScore(query, items[j]).value == 0.0)
      && (best.index.None? ==> best.score == 0.0)
      && (best.index.Some? ==>
            && 0.0 < best.score
            && ItemScore(query, items[best.index.value]) == Ok(best.score)
            && forall j :: 0 <= j < best.index.value ==> ItemScore(query, items[j]).value < best.score)
  {
    ScanIsMaximum(query, items);
    ScanKeepsFirst(query, items);
  }

  /** The best score is the greatest score, and it is 0 with nothing selected
      exactly when every record scores 0. */
  lemma {:induction false} ScanIsMaximum(query: string, items: seq<Json>)
    requires Scan(query, items).Ok?
    ensures forall j :: 0 <= j < |items| ==> ItemScore(query, items[j]).Ok?
    ensures var best := Scan(query, items).value;
      && (forall j :: 0 <= j < |items| ==> ItemScore(query, items[j]).value <= best.score)
      && (best.index.None? <==> forall j :: 0 <= j < |items| ==> ItemScore(query, items[j]).value == 0.0)
      && (best.index.None? ==> best.score == 0.0)
    decreases |items|
  {
    if items != [] {
      ScanIsMaximum(query, items[..|items| - 1]);
      ScanStep(query, items);
    }
  }

  /** A selected record scores the best score, and every earlier record
      scores strictly less. */
  lemma {:induction false} ScanKeepsFirst(query: string, items: seq<Json>)
    requires Scan(query, items).Ok?
    ensures var best := Scan(query, items).value;
      best.index.Some? ==>
        && 0.0 < best.score
        && ItemScore(query, items[best.index.value]) == Ok(best.score)
        && forall j :: 0 <= j < best.index.value ==> ItemScore(query, items[j]).Ok? && ItemScore(query, items[j]).value < best.score
    decreases |items|
  {
    if items != [] {
      ScanKeepsFirst(query, items[..|items| - 1]);
      ScanIsMaximum(query, items[..|items| - 1]);
      ScanStep(query, items);
    }
  }

  /** One step of the scan: the last item either strictly beats the best of
      the others, or leaves it in place. */
  lemma ScanStep(query: string, items: seq<Json>)
    requires items != [] && Scan(query, items).Ok?
    ensures var last := |items| - 1; var init := items[..last];
      && Scan(query, init).Ok? && ItemScore(query, items[last]).Ok?
      && (forall j :: 0 <= j < last ==> items[j] == init[j])
      && Scan(query, items).value
         == (if ItemScore(query, items[last]).value > Scan(query, init).value.score
             then Best(Some(last), ItemScore(query, items[last]).value)
             else Scan(query, init).value)
  {
  }


  /** Lookup raises exactly when some record cannot be scored, and then at the
      first such record. */
  lemma {:induction false} ScanRaisesAtFirstFault(query: string, items: seq<Json>)
    ensures Scan(query, items).Err? <==> exists j :: 0 <= j < |items| && ItemScore(query, items[j]).Err?
    ensures Scan(query, items).Err? ==>
      var e := Scan(query, items).error;
      && ItemScore(query, items[e.at]) == Err(e.fault)
      && forall j :: 0 <= j < e.at ==> ItemScore(query, items[j]).Ok?
    decreases |items|
  {
    if items != [] {
      var init := items[..|items| - 1];
      ScanRaisesAtFirstFault(query, init);
      assert forall j :: 0 <= j < |init| ==> items[j] == init[j];
    }
  }

  /** The decision: on a non-empty corpus the answer is the best record's `a`
      when a best record exists and its score reaches the threshold, and ""
      otherwise; the score is the best score, rounded, in either case. */
  lemma LookupDecision(items: seq<Json>, query: string, threshold: real)
    requires items != [] && Scan(query, items).Ok?
    ensures var best := Scan(query, items).value;
      LookupOutcome(items, query, threshold) == Ok(LookupResult(
        None,
        if best.index.Some? && best.score >= threshold then AnswerOf(items[best.index.value]) else JStr(""),
        Round3(best.score)))
  {
  }

  /** The `q` of a record, when it is a dict (default ""). */
  function QueryOf(item: Json): Json
  {
    if item.JObj? then Get(item.fields, "q", JStr("")) else JStr("")
  }

  /** When the normalised query equals the `q` of some record, the best score
      is 1.0 and the selected record is the first whose `q` equals it. */
  lemma ExactMatchWins(query: string, items: seq<Json>, k: nat)
    requires Scan(query, items).Ok?
    requires k < |items| && items[k].JObj? && QueryOf(items[k]) == JStr(query)
    ensures var best := Scan(query, items).value;
      && best.score == 1.0
      && best.index.Some? && best.index.value <= k
      && QueryOf(items[best.index.value]) == JStr(query)
      && forall j :: 0 <= j < best.index.value ==> QueryOf(items[j]) != JStr(query)
  {
    ScanFindsFirstMaximum(query, items);
    var best := Scan(query, items).value;
    RatioSelf(query);
    assert ItemScore(query, items[k]) == Ok(1.0);
    var i := best.index.value;
    if QueryOf(items[i]).JStr? {
      RatioOneIffEqual(query, QueryOf(items[i]).s);
    }
    forall j | 0 <= j < i
      ensures QueryOf(items[j]) != JStr(query)
    {
      assert ItemScore(query, items[j]).value < 1.0;
    }
  }

  /** With a threshold of at most 1.0, a query that normalises to the `q` of a
      record is answered with the `a` of the first such record, score 1.0. */
  lemma ExactQueryAnswered(query: string, items: seq<Json>, threshold: real, k: nat) returns (i: nat)
    requires Scan(query, items).Ok? && threshold <= 1.0
    requires k < |items| && items[k].JObj? && QueryOf(items[k]) == JStr(query)
    ensures i <= k && QueryOf(items[i]) == JStr(query)
    ensures forall j :: 0 <= j < i ==> QueryOf(items[j]) != JStr(query)
    ensures LookupOutcome(items, query, threshold) == Ok(LookupResult(None, AnswerOf(items[i]), 1.0))
  {
    ExactMatchWins(query, items, k);
    i := Scan(query, items).value.index.value;
    LookupDecision(items, query, threshold);
    assert (1000.0 * 1.0 + 0.5).Floor == 1000;
  }

  /** The greetings example: one group, one entry, two triggers that
      normalisation leaves as they are. Loading yields one record per trigger,
      both with the entry's answer. */
  lemma GreetingsLoad(txt: string, parse: Parser, norm: Normalizer)
    requires parse(txt) == Some(JObj([("greetings", JArr([JObj([
      ("answer", JStr("Hello!")),
      ("triggers", JArr([JStr("hi"), JStr("hello there")]))])]))]))
    requires norm("hi", false) == "hi" && norm("hello there", false) == "hello there"
    ensures LoadedItems(Some(txt), parse, norm) == [Record("hi", JStr("Hello!")), Record("hello there", JStr("Hello!"))]
  {
    var ans := JStr("Hello!");
    var expected := [Record("hi", ans), Record("hello there", ans)];
    var trigs := [JStr("hi"), JStr("hello there")];
    GreetingsTriggers(norm);
    var entry := JObj([("answer", ans), ("triggers", JArr(trigs))]);
    assert EntryRecords(entry, norm) == Some(expected);
    assert [entry][..0] == [] && [] + expected == expected;
    assert EntriesRecords([entry], norm) == Some(expected);
    var groups := [("greetings", JArr([entry]))];
    assert groups[..0] == [];
    assert GroupsRecords(groups, norm) == Some(expected);
  }

  /** The two greeting triggers give one record each, in order. */
  lemma GreetingsTriggers(norm: Normalizer)
    requires norm("hi", false) == "hi" && norm("hello there", false) == "hello there"
    ensures TriggerRecords([JStr("hi"), JStr("hello there")], JStr("Hello!"), norm)
      == Some([Record("hi", JStr("Hello!")), Record("hello there", JStr("Hello!"))])
  {
    var ans := JStr("Hello!");
    var trigs := [JStr("hi"), JStr("hello there")];
    assert trigs[..1] == [JStr("hi")] && [JStr("hi")][..0] == [];
    assert Truthy(ans);
    assert TriggerRecord(JStr("hi"), ans, norm) == Some([Record("hi", ans)]);
    assert TriggerRecord(JStr("hello there"), ans, norm) == Some([Record("hello there", ans)]);
    assert [] + [Record("hi", ans)] == [Record("hi", ans)];
    assert TriggerRecords([JStr("hi")], ans, norm) == Some([Record("hi", ans)]);
    assert [Record("hi", ans)] + [Record("hello there", ans)] == [Record("hi", ans), Record("hello there", ans)];
  }


  /** A record's `q` that is text is always scored. */
  lemma RecordScored(query: string, q: string, a: Json)
    ensures QueryOf(Record(q, a)) == JStr(q)
    ensures ItemScore(query, Record(q, a)) == Ok(Ratio(query, q))
  {
  }

  /** Two records where only the second has the query as its `q`: the second
      one answers. */
  lemma SecondRecordExact(query: string, other: string, a0: Json, a1: Json, threshold: real)
    requires other != query && threshold <= 1.0
    ensures LookupOutcome([Record(other, a0), Record(query, a1)], query, threshold)
      == Ok(LookupResult(None, a1, 1.0))
  {
    var items := [Record(other, a0), Record(query, a1)];
    RecordScored(query, other, a0);
    RecordScored(query, query, a1);
    ScanRaisesAtFirstFault(query, items);
    assert forall j :: 0 <= j < |items| ==> ItemScore(query, items[j]).Ok?;
    var i := ExactQueryAnswered(query, items, threshold, 1);
    assert i == 1;
    assert items[1].fields[1..] == [("a", a1)];
    assert "q" != "a";
    assert Get(items[1].fields, "a", JStr("")) == Get([("a", a1)], "a", JStr("")) == a1;
  }

  /** The greetings example, continued: with threshold 0.8 the query
      "hello there" is answered "Hello!" with score 1.0. */
  lemma GreetingsLookup()
    ensures LookupOutcome([Record("hi", JStr("Hello!")), Record("hello there", JStr("Hello!"))], "hello there", 0.8)
      == Ok(LookupResult(None, JStr("Hello!"), 1.0))
  {
    SecondRecordExact("hello there", "hi", JStr("Hello!"), JStr("Hello!"), 0.8);
  }
}
