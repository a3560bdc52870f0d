/** The GENERAL_RAG answer table (llm/llm_data.py): a corpus of `{q, a}`
    records loaded once from a JSON document, and a lookup that scores a
    normalised query against every record and accepts the best one when its
    score reaches the configured threshold.

    The file read, `json.loads` and `norm_text` are given to the model: the
    text as `Option<string>` (None when opening or reading fails), the parser
    as a partial function, the normaliser as a function fixed when the table
    is built, so that loading and lookup use the same one. */
module LlmData {
  import opened Wrappers
  import opened JsonModel
  import opened Similarity
  import opened TextLines

  /** `norm_text(text, flag)`; the core always passes `False` as the flag. */
  type Normalizer = (string, bool) -> string

  /** `json.loads`: a value, or None where it raises JSONDecodeError. */
  type Parser = string -> Option<Json>

  /** The `error` string `lookup` reports when the corpus is empty. */
  const EmptyCorpusError: string := "general_rag_vacia"

  /** One stored record, `{'q': q, 'a': a}`. */
  function Record(q: string, a: Json): Json
  {
    JObj([("q", JStr(q)), ("a", a)])
  }

  /** Both parts succeed, and their records are kept in order. */
  function Concat(first: Option<seq<Json>>, second: Option<seq<Json>>): Option<seq<Json>>
  {
    if first.Some? && second.Some? then Some(first.value + second.value) else None
  }

  // ---------------------------------------------------------------------------
  // Loading a grouped document
  // ---------------------------------------------------------------------------

  /** The record one trigger of an entry whose answer is `ans` yields: none
      when the normalised trigger or the answer is falsy; None where the
      trigger is not text (norm_text is taken to raise on it). */
  function TriggerRecord(trig: Json, ans: Json, norm: Normalizer): Option<seq<Json>>
  {
    if !trig.JStr? then None
    else
      var q := norm(trig.s, false);
      Some(if q != "" && Truthy(ans) then [Record(q, ans)] else [])
  }

  /** The records of the triggers of one entry, trigger after trigger. */
  function TriggerRecords(trigs: seq<Json>, ans: Json, norm: Normalizer): Option<seq<Json>>
    decreases |trigs|
  {
    if trigs == [] then Some([])
    else Concat(TriggerRecords(trigs[..|trigs| - 1], ans, norm), TriggerRecord(trigs[|trigs| - 1], ans, norm))
  }

  /** The records of one entry of a group; None where the entry is not a dict
      (`.get` raises) or its `triggers` value cannot be iterated. */
  function EntryRecords(entry: Json, norm: Normalizer): Option<seq<Json>>
  {
    if !entry.JObj? then None
    else
      match Iterated(Get(entry.fields, "triggers", JArr([])))
      case None => None
      case Some(trigs) => TriggerRecords(trigs, Get(entry.fields, "answer", JStr("")), norm)
  }

  /** The records of a list of entries, entry after entry. */
  function EntriesRecords(entries: seq<Json>, norm: Normalizer): Option<seq<Json>>
    decreases |entries|
  {
    if entries == [] then Some([])
    else Concat(EntriesRecords(entries[..|entries| - 1], norm), EntryRecords(entries[|entries| - 1], norm))
  }

  /** The records one group contributes: a value that is not a list is skipped. */
  function GroupRecords(group: (string, Json), norm: Normalizer): Option<seq<Json>>
  {
    if group.1.JArr? then EntriesRecords(group.1.elems, norm) else Some([])
  }

  /** The records of a grouped document, group after group. */
  function GroupsRecords(groups: seq<(string, Json)>, norm: Normalizer): Option<seq<Json>>
    decreases |groups|
  {
    if groups == [] then Some([])
    else Concat(GroupsRecords(groups[..|groups| - 1], norm), GroupRecords(groups[|groups| - 1], norm))
  }

  // ---------------------------------------------------------------------------
  // The line-delimited fallback
  // ---------------------------------------------------------------------------

  /** `[json.loads(line) for line in lines if line.strip()]`, or None when one
      of those lines does not parse. */
  function ParsedLines(lines: seq<string>, parse: Parser): Option<seq<Json>>
    decreases |lines|
  {
    if lines == [] then Some([])
    else
      var line := lines[|lines| - 1];
      match ParsedLines(lines[..|lines| - 1], parse)
      case None => None
      case Some(done) =>
        if IsBlank(line) then Some(done)
        else if parse(line).None? then None
        else Some(done + [parse(line).value])
  }

  // ---------------------------------------------------------------------------
  // load
  // ---------------------------------------------------------------------------

  /** The corpus `load` leaves: the flattened groups of a dict, a list as it is,
      nothing for any other value; the parsed lines when the whole text does
      not parse; and nothing whenever something raises on the way. */
  function LoadedItems(file: Option<string>, parse: Parser, norm: Normalizer): seq<Json>
  {
    match file
    case None => []
    case Some(txt) =>
      match parse(txt)
      case Some(JObj(groups)) => (match GroupsRecords(groups, norm) case Some(rs) => rs case None => [])
      case Some(JArr(xs)) => xs
      case Some(_) => []
      case None => (match ParsedLines(SplitLines(txt), parse) case Some(xs) => xs case None => [])
  }

  // ---------------------------------------------------------------------------
  // lookup
  // ---------------------------------------------------------------------------

  /** Why scoring a record raises: it is not a dict (`.get` raises
      AttributeError), or its `q` is neither text nor null. */
  datatype Fault = ItemNotObject | QueryNotText

  /** The exception `lookup` lets escape, with the index of the record. */
  datatype Raised = Raised(at: nat, fault: Fault)

  /** The scan's running state: the index of `best` (None for Python's None)
      and `best_s`. */
  datatype Best = Best(index: Option<nat>, score: real)

  /** The dict `lookup` returns; `error` is present only for an empty corpus. */
  datatype LookupResult = LookupResult(error: Option<string>, answer: Json, score: real)

  /** The similarity of the normalised query and a record's `q` (default ""):
      rapidfuzz scores a null against anything as 0. */
  function ItemScore(query: string, item: Json): (r: Result<real, Fault>)
    ensures r.Ok? ==> 0.0 <= r.value <= 1.0
  {
    if !item.JObj? then Err(ItemNotObject)
    else
      match Get(item.fields, "q", JStr(""))
      case JStr(q) => Ok(Ratio(query, q))
      case JNull => Ok(0.0)
      case _ => Err(QueryNotText)
  }

  /** The state after scanning `items` in order, starting from (None, 0.0) and
      moving to a record only on a strictly greater score; or the first
      record whose scoring raises. */
  function Scan(query: string, items: seq<Json>): (r: Result<Best, Raised>)
    ensures r.Ok? ==> 0.0 <= r.value.score <= 1.0
    ensures r.Ok? && r.value.index.Some? ==> r.value.index.value < |items| && items[r.value.index.value].JObj?
    ensures r.Err? ==> r.error.at < |items|
    decreases |items|
  {
    if items == [] then Ok(Best(None, 0.0))
    else
      var last := |items| - 1;
      match Scan(query, items[..last])
      case Err(e) => Err(e)
      case Ok(best) =>
        match ItemScore(query, items[last])
        case Err(f) => Err(Raised(last, f))
        case Ok(s) => Ok(if s > best.score then Best(Some(last), s) else best)
  }

  /** `round(x, 3)`, with ties rounded up. */
  function Round3(x: real): (r: real)
    ensures 0.0 <= x <= 1.0 ==> 0.0 <= r <= 1.0
  {
    (x * 1000.0 + 0.5).Floor as real / 1000.0
  }

  /** `d.get('a', '')` on a record: the value it stores under "a", or "". */
  function AnswerOf(item: Json): (a: Json)
    ensures item.JObj? && (forall i :: 0 <= i < |item.fields| ==> item.fields[i].0 != "a") ==> a == JStr("")
    ensures forall i :: item.JObj? && 0 <= i < |item.fields| && item.fields[i].0 == "a" && (forall j :: 0 <= j < i ==> item.fields[j].0 != "a") ==> a == item.fields[i].1
  {
    if item.JObj? then
      var a := Get(item.fields, "a", JStr(""));
      assert forall i :: 0 <= i < |item.fields| && item.fields[i].0 == "a" && (forall j :: 0 <= j < i ==> item.fields[j].0 != "a") ==> a == item.fields[i].1 by {
        forall i | 0 <= i < |item.fields| && item.fields[i].0 == "a" && (forall j :: 0 <= j < i ==> item.fields[j].0 != "a") {
          GetFirstMatch(item.fields, "a", JStr(""), i);
        }
      }
      a
    else JStr("")
  }

  /** What `lookup` returns for the already normalised query `query`. */
  function LookupOutcome(items: seq<Json>, query: string, threshold: real): Result<LookupResult, Raised>
  {
    if items == [] then Ok(LookupResult(Some(EmptyCorpusError), JStr(""), threshold))
    else
      match Scan(query, items)
      case Err(e) => Err(e)
      case Ok(best) =>
        if best.index.Some? && Truthy(items[best.index.value]) && best.score >= threshold
        then Ok(LookupResult(None, AnswerOf(items[best.index.value]), Round3(best.score)))
        else Ok(LookupResult(None, JStr(""), Round3(best.score)))
  }

  // ---------------------------------------------------------------------------
  // The table
  // ---------------------------------------------------------------------------

  class GeneralRag {
    /** `norm_text`, shared by loading and lookup. */
    const norm: Normalizer
    /** `FUZZY_LOGIC_ACCURACY_GENERAL_RAG`. */
    const threshold: real
    /** `self.items`. */
    var items: seq<Json>

    constructor (norm: Normalizer, threshold: real, file: Option<string>, parse: Parser)
      ensures this.norm == norm && this.threshold == threshold
      ensures items == LoadedItems(file, parse, norm)
    {
      this.norm := norm;
      this.threshold := threshold;
      items := [];
      new;
      Load(file, parse);
    }

    /** Replaces the corpus with what `file` holds. */
    method Load(file: Option<string>, parse: Parser)
      modifies this
      ensures items == LoadedItems(file, parse, norm)
    {
      if file.None? {
        items := [];
        return;
      }
      var txt := file.value;
      var parsed := parse(txt);
      if parsed.None? {
        var lines := SplitLines(txt);
        var out := ParseLines(lines, parse);
        items := if out.Some? then out.value else [];
      } else if parsed.value.JObj? {
        var out := Flatten(parsed.value.fields);
        items := if out.Some? then out.value else [];
      } else if parsed.value.JArr? {
        items := parsed.value.elems;
      } else {
        items := [];
      }
    }

    /** The loop over the groups of a dict; None where something raises. */
    method Flatten(groups: seq<(string, Json)>) returns (r: Option<seq<Json>>)
      ensures r == GroupsRecords(groups, norm)
    {
      var acc: seq<Json> := [];
      var g := 0;
      while g < |groups|
        invariant 0 <= g <= |groups|
        invariant GroupsRecords(groups[..g], norm) == Some(acc)
      {
        assert groups[..g + 1][..g] == groups[..g];
        var lst := groups[g].1;
        if lst.JArr? {
          var recs := FlattenEntries(lst.elems);
          if recs.None? {
            GroupsFailurePersists(groups, g + 1, norm);
            return None;
          }
          acc := acc + recs.value;
        } else {
          assert acc + [] == acc;
        }
        assert GroupsRecords(groups[..g + 1], norm)
          == Concat(GroupsRecords(groups[..g], norm), GroupRecords(groups[g], norm));
        g := g + 1;
      }
      assert groups[..g] == groups;
      r := Some(acc);
    }

    /** The loop over the entries of one group. */
    method FlattenEntries(entries: seq<Json>) returns (r: Option<seq<Json>>)
      ensures r == EntriesRecords(entries, norm)
    {
      var acc: seq<Json> := [];
      var e := 0;
      while e < |entries|
        invariant 0 <= e <= |entries|
        invariant EntriesRecords(entries[..e], norm) == Some(acc)
      {
        assert entries[..e + 1][..e] == entries[..e];
        var it := entries[e];
        if !it.JObj? {
          EntriesFailurePersists(entries, e + 1, norm);
          return None;
        }
        var trigs := Iterated(Get(it.fields, "triggers", JArr([])));
        if trigs.None? {
          EntriesFailurePersists(entries, e + 1, norm);
          return None;
        }
        var recs := FlattenTriggers(trigs.value, Get(it.fields, "answer", JStr("")));
        if recs.None? {
          EntriesFailurePersists(entries, e + 1, norm);
          return None;
        }
        acc := acc + recs.value;
        e := e + 1;
      }
      assert entries[..e] == entries;
      r := Some(acc);
    }

    /** The loop over the triggers of one entry, whose answer is `ans`. */
    method FlattenTriggers(trigs: seq<Json>, ans: Json) returns (r: Option<seq<Json>>)
      ensures r == TriggerRecords(trigs, ans, norm)
    {
      var acc: seq<Json> := [];
      var t := 0;
      while t < |trigs|
        invariant 0 <= t <= |trigs|
        invariant TriggerRecords(trigs[..t], ans, norm) == Some(acc)
      {
        assert trigs[..t + 1][..t] == trigs[..t];
        var trig := trigs[t];
        if !trig.JStr? {
          TriggersFailurePersists(trigs, t + 1, ans, norm);
          return None;
        }
        var q := norm(trig.s, false);
        if q != "" && Truthy(ans) {
          acc := acc + [Record(q, ans)];
        } else {
          assert acc + [] == acc;
        }
        t := t + 1;
      }
      assert trigs[..t] == trigs;
      r := Some(acc);
    }

    /** The list comprehension of the fallback; None where a line does not parse. */
    static method ParseLines(lines: seq<string>, parse: Parser) returns (r: Option<seq<Json>>)
      ensures r == ParsedLines(lines, parse)
    {
      var acc: seq<Json> := [];
      var i := 0;
      while i < |lines|
        invariant 0 <= i <= |lines|
        invariant ParsedLines(lines[..i], parse) == Some(acc)
      {
        assert lines[..i + 1][..i] == lines[..i];
        if !IsBlank(lines[i]) {
          var v := parse(lines[i]);
          if v.None? {
            LinesFailurePersists(lines, i + 1, parse);
            return None;
          }
          acc := acc + [v.value];
        }
        i := i + 1;
      }
      assert lines[..i] == lines;
      r := Some(acc);
    }

    /** Scores every record against the normalised query, keeps the first
        strictly best one and applies the threshold. */
    method Lookup(query: string) returns (r: Result<LookupResult, Raised>)
      ensures r == LookupOutcome(items, norm(query, false), threshold)
      ensures items == [] ==> r == Ok(LookupResult(Some(EmptyCorpusError), JStr(""), threshold))
      ensures items != [] && r.Ok? ==> r.value.error.None? && 0.0 <= r.value.score <= 1.0
    {
      if items == [] {
        return Ok(LookupResult(Some(EmptyCorpusError), JStr(""), threshold));
      }
      var q := norm(query, false);
      var best: Option<nat> := None;
      var bestScore := 0.0;
      var i := 0;
      while i < |items|
        invariant 0 <= i <= |items|
        invariant Scan(q, items[..i]) == Ok(Best(best, bestScore))
      {
        assert items[..i + 1][..i] == items[..i];
        var s := ItemScore(q, items[i]);
        if s.Err? {
          ScanFailurePersists(q, items, i + 1);
          return Err(Raised(i, s.error));
        }
        if s.value > bestScore {
          best, bestScore := Some(i), s.value;
        }
        i := i + 1;
      }
      assert items[..i] == items;
      if best.Some? && Truthy(items[best.value]) && bestScore >= threshold {
        r := Ok(LookupResult(None, AnswerOf(items[best.value]), Round3(bestScore)));
      } else {
        r := Ok(LookupResult(None, JStr(""), Round3(bestScore)));
      }
    }
  }

  // ---------------------------------------------------------------------------
  // An exception raised part-way stops the whole operation
  // ---------------------------------------------------------------------------

  lemma {:induction false} TriggersFailurePersists(trigs: seq<Json>, k: nat, ans: Json, norm: Normalizer)
    requires k <= |trigs| && TriggerRecords(trigs[..k], ans, norm).None?
    ensures TriggerRecords(trigs, ans, norm).None?
    decreases |trigs|
  {
    if k < |trigs| {
      var init := trigs[..|trigs| - 1];
      assert init[..k] == trigs[..k];
      TriggersFailurePersists(init, k, ans, norm);
    } else {
      assert trigs[..k] == trigs;
    }
  }

  lemma {:induction false} EntriesFailurePersists(entries: seq<Json>, k: nat, norm: Normalizer)
    requires k <= |entries| && EntriesRecords(entries[..k], norm).None?
    ensures EntriesRecords(entries, norm).None?
    decreases |entries|
  {
    if k < |entries| {
      var init := entries[..|entries| - 1];
      assert init[..k] == entries[..k];
      EntriesFailurePersists(init, k, norm);
    } else {
      assert entries[..k] == entries;
    }
  }

  lemma {:induction false} GroupsFailurePersists(groups: seq<(string, Json)>, k: nat, norm: Normalizer)
    requires k <= |groups| && GroupsRecords(groups[..k], norm).None?
    ensures GroupsRecords(groups, norm).None?
    decreases |groups|
  {
    if k < |groups| {
      var init := groups[..|groups| - 1];
      assert init[..k] == groups[..k];
      GroupsFailurePersists(init, k, norm);
    } else {
      assert groups[..k] == groups;
    }
  }

  lemma {:induction false} LinesFailurePersists(lines: seq<string>, k: nat, parse: Parser)
    requires k <= |lines| && ParsedLines(lines[..k], parse).None?
    ensures ParsedLines(lines, parse).None?
    decreases |lines|
  {
    if k < |lines| {
      var init := lines[..|lines| - 1];
      assert init[..k] == lines[..k];
      LinesFailurePersists(init, k, parse);
    } else {
      assert lines[..k] == lines;
    }
  }

  lemma {:induction false} ScanFailurePersists(query: string, items: seq<Json>, k: nat)
    requires k <= |items| && Scan(query, items[..k]).Err?
    ensures Scan(query, items) == Scan(query, items[..k])
    decreases |items|
  {
    if k < |items| {
      var init := items[..|items| - 1];
      assert init[..k] == items[..k];
      ScanFailurePersists(query, init, k);
    } else {
      assert items[..k] == items;
    }
  }
}
