/** The genealogy kept as a plain log: one entry for each unit of an execution,
    naming the units on the other side as one comma-separated text. */
module UnitLog {
  import opened Bytes
  import opened Common
  import opened Lineage

  type Text = seq<byte>

  /** A unit is named by a text. */
  type Id = Text

  const COMMA: byte := 44

  /** An execution: what it consumed and what it produced. */
  datatype Call = Call(instance: Id, inputs: seq<Id>, outputs: seq<Id>)

  // Unit ids in one text.

  predicate ValidId(id: Id) { id != [] && COMMA !in id }

  function Joined(ids: seq<Id>): Text {
    if |ids| == 0 then []
    else if |ids| == 1 then ids[0]
    else Joined(ids[..|ids| - 1]) + [COMMA] + ids[|ids| - 1]
  }

  /** A text cut at its commas: the pieces that ended, and the one that did not. */
  function Cut(s: Text): (seq<Text>, Text) {
    if s == [] then ([], [])
    else
      var (ended, last) := Cut(s[..|s| - 1]);
      var c := s[|s| - 1];
      if c == COMMA then (ended + [last], []) else (ended, last + [c])
  }

  function Pieces(s: Text): seq<Text> { Cut(s).0 + [Cut(s).1] }

  function NonEmpty(parts: seq<Text>): seq<Id> {
    if parts == [] then []
    else
      var front, p := NonEmpty(parts[..|parts| - 1]), parts[|parts| - 1];
      if p == [] then front else front + [p]
  }

  function Ids(s: Text): seq<Id> { NonEmpty(Pieces(s)) }

  method SplitIds(s: Text) returns (ids: seq<Id>)
    ensures ids == Ids(s)
  {
    if s == [] {
      assert NonEmpty([[]]) == NonEmpty([[]][..0]);
      return [];
    }
    var parts := Pieces(s);
    ids := [];
    for i := 0 to |parts|
      invariant ids == NonEmpty(parts[..i])
    {
      assert parts[..i + 1][..i] == parts[..i];
      if parts[i] != [] {
        ids := ids + [parts[i]];
      }
    }
    assert parts[..|parts|] == parts;
  }

  lemma CutNext(s: Text, c: byte)
    ensures Cut(s + [c]) == if c == COMMA then (Cut(s).0 + [Cut(s).1], []) else (Cut(s).0, Cut(s).1 + [c])
  {
    assert (s + [c])[..|s|] == s;
  }

  lemma {:induction false} CutMore(s: Text, t: Text)
    requires forall i | 0 <= i < |t| :: t[i] != COMMA
    ensures Cut(s + t) == (Cut(s).0, Cut(s).1 + t)
  {
    if t == [] {
      assert s + t == s && Cut(s).1 + t == Cut(s).1;
    } else {
      var u, c := t[..|t| - 1], t[|t| - 1];
      CutMore(s, u);
      CutNext(s + u, c);
      assert u + [c] == t;
      assert s + u + [c] == s + t;
      assert Cut(s).1 + u + [c] == Cut(s).1 + t;
    }
  }

  lemma {:induction false} CutJoined(ids: seq<Id>)
    requires ids != [] && forall i | 0 <= i < |ids| :: COMMA !in ids[i]
    ensures Cut(Joined(ids)) == (ids[..|ids| - 1], ids[|ids| - 1])
  {
    var n := |ids| - 1;
    if n == 0 {
      CutMore([], ids[0]);
      assert [] + ids[0] == ids[0];
    } else {
      var front := Joined(ids[..n]);
      CutJoined(ids[..n]);
      CutNext(front, COMMA);
      CutMore(front + [COMMA], ids[n]);
      assert [] + ids[n] == ids[n];
      assert ids[..n] == ids[..n][..n - 1] + [ids[..n][n - 1]];
    }
  }

  lemma {:induction false} NothingEmpty(ids: seq<Id>)
    requires forall i | 0 <= i < |ids| :: ids[i] != []
    ensures NonEmpty(ids) == ids
  {
    if ids != [] {
      NothingEmpty(ids[..|ids| - 1]);
      assert ids == ids[..|ids| - 1] + [ids[|ids| - 1]];
    }
  }

  /** A list of valid ids survives being joined and split. */
  lemma IdsOfJoined(ids: seq<Id>)
    requires forall id | id in ids :: ValidId(id)
    ensures Ids(Joined(ids)) == ids
  {
    if ids == [] {
      assert NonEmpty([[]]) == NonEmpty([[]][..0]);
    } else {
      assert forall i | 0 <= i < |ids| :: ValidId(ids[i]);
      CutJoined(ids);
      assert ids == ids[..|ids| - 1] + [ids[|ids| - 1]];
      NothingEmpty(ids);
    }
  }

  // The log.

  datatype Role = Input | Output

  datatype Entry = Entry(unit: Id, role: Role, related: Text)

  predicate Accepted(c: Call) {
    c.instance != [] && (c.inputs != [] || c.outputs != []) && forall id | id in c.inputs + c.outputs :: ValidId(id)
  }

  /** The units named on the other side, over every entry of a unit in a role. */
  function Related(log: seq<Entry>, unit: Id, role: Role): seq<Id> {
    if log == [] then []
    else
      var front, e := Related(log[..|log| - 1], unit, role), log[|log| - 1];
      if e.unit == unit && e.role == role then front + Ids(e.related) else front
  }

  function Sources(log: seq<Entry>): Graph<Id> { u => Related(log, u, Output) }

  function Consumers(log: seq<Entry>): Graph<Id> { u => Related(log, u, Input) }

  predicate Made(c: Call, output: Id, input: Text) { output in c.outputs && input in c.inputs }

  /** What entries for the first n units of one role add. */
  ghost predicate Adds(prior: seq<Entry>, log: seq<Entry>, units: seq<Id>, role: Role, others: seq<Id>) {
    forall u, r, v :: v in Related(log, u, r) <==> Before(prior, units, role, others, u, r, v)
  }

  predicate Before(prior: seq<Entry>, units: seq<Id>, role: Role, others: seq<Id>, u: Id, r: Role, v: Id) {
    v in Related(prior, u, r) || (r == role && u in units && v in others)
  }

  lemma EntryAdds(prior: seq<Entry>, log: seq<Entry>, units: seq<Id>, role: Role, others: seq<Id>, unit: Text)
    requires Adds(prior, log, units, role, others) && forall id | id in others :: ValidId(id)
    ensures Adds(prior, log + [Entry(unit, role, Joined(others))], units + [unit], role, others)
  {
    var e := Entry(unit, role, Joined(others));
    IdsOfJoined(others);
    assert (log + [e])[..|log|] == log;
  }

  /** One entry for each unit, naming the other side. */
  method WriteAll(prior: seq<Entry>, units: seq<Id>, role: Role, others: seq<Id>) returns (log: seq<Entry>)
    requires forall id | id in others :: ValidId(id)
    ensures Adds(prior, log, units, role, others)
  {
    log := prior;
    for i := 0 to |units|
      invariant Adds(prior, log, units[..i], role, others)
    {
      EntryAdds(prior, log, units[..i], role, others, units[i]);
      assert units[..i + 1] == units[..i] + [units[i]];
      log := log + [Entry(units[i], role, Joined(others))];
    }
    assert units[..|units|] == units;
  }

  ghost predicate Relates(prior: seq<Entry>, log: seq<Entry>, c: Call) {
    && (forall u, v :: v in Related(log, u, Output) <==> v in Related(prior, u, Output) || Made(c, u, v))
    && (forall u, v :: v in Related(log, u, Input) <==> v in Related(prior, u, Input) || Made(c, v, u))
  }

  lemma BothSides(prior: seq<Entry>, half: seq<Entry>, log: seq<Entry>, c: Call)
    requires Adds(prior, half, c.outputs, Output, c.inputs) && Adds(half, log, c.inputs, Input, c.outputs)
    ensures Relates(prior, log, c)
  {
    forall u, v
      ensures v in Related(log, u, Output) <==> v in Related(prior, u, Output) || Made(c, u, v)
      ensures v in Related(log, u, Input) <==> v in Related(prior, u, Input) || Made(c, v, u)
    {
      assert v in Related(log, u, Output) <==> Before(half, c.inputs, Input, c.outputs, u, Output, v);
      assert v in Related(log, u, Input) <==> Before(half, c.inputs, Input, c.outputs, u, Input, v);
      assert v in Related(half, u, Output) <==> Before(prior, c.outputs, Output, c.inputs, u, Output, v);
      assert v in Related(half, u, Input) <==> Before(prior, c.outputs, Output, c.inputs, u, Input, v);
    }
  }

  method AllValid(ids: seq<Id>) returns (ok: bool)
    ensures ok <==> forall id | id in ids :: ValidId(id)
  {
    for i := 0 to |ids|
      invariant forall id | id in ids[..i] :: ValidId(id)
    {
      if !ValidId(ids[i]) { return false; }
    }
    return true;
  }

  /** Nothing is written unless every id is valid; otherwise each output is related
      to each input in both directions, and nothing else changes. */
  method Record(prior: seq<Entry>, c: Call) returns (log: seq<Entry>, ok: bool)
    ensures ok <==> Accepted(c)
    ensures !ok ==> log == prior
    ensures ok ==> Relates(prior, log, c)
  {
    if c.instance == [] || (|c.inputs| == 0 && |c.outputs| == 0) { return prior, false; }
    var inputsOk := AllValid(c.inputs);
    if !inputsOk { return prior, false; }
    var outputsOk := AllValid(c.outputs);
    if !outputsOk { return prior, false; }
    var half := WriteAll(prior, c.outputs, Output, c.inputs);
    log := WriteAll(half, c.inputs, Input, c.outputs);
    ok := true;
    BothSides(prior, half, log, c);
  }
}
