/**
 * The Stackdriver administration handlers: ordering and tabulating custom
 * metric descriptors, and clearing them with batched delete requests whose
 * callbacks record one line per descriptor and count the successes.
 */
module StackdriverHandlers {
  import opened Wrappers
  import opened Text

  // ---------------------------------------------------------------------
  // Descriptors
  // ---------------------------------------------------------------------

  /** A descriptor label: its 'key', if present. */
  datatype Label = Label(key: Option<string>)

  /** A metric descriptor: its 'type', 'labels' and 'name' entries, each possibly absent. */
  datatype Descriptor = Descriptor(typeName: Option<string>, labels: Option<seq<Label>>, name: Option<string>)

  /** StackdriverClient.CUSTOM_PREFIX. */
  const CustomPrefix: string := "custom.googleapis.com/spinnaker/"

  /** `t[len(CUSTOM_PREFIX):]`: the text after the prefix's length, empty for a shorter text. */
  function Root(t: string): (r: string)
    ensures |t| <= |CustomPrefix| ==> r == ""
    ensures |t| > |CustomPrefix| ==> r == t[|CustomPrefix|..]
  {
    if |t| <= |CustomPrefix| then "" else t[|CustomPrefix|..]
  }

  /** The root of a custom type is the text after the prefix. */
  lemma RootOfCustom(x: string)
    ensures Root(CustomPrefix + x) == x
  {
    if x != "" {
      assert (CustomPrefix + x)[|CustomPrefix|..] == x;
    }
  }

  /** The slice does not check the prefix: any text of the prefix's length is cut off. */
  lemma RootIgnoresPrefix(p: string, x: string)
    requires |p| == |CustomPrefix|
    ensures Root(p + x) == x
  {
    if x != "" {
      assert (p + x)[|CustomPrefix|..] == x;
    }
  }

  // ---------------------------------------------------------------------
  // compare_types
  // ---------------------------------------------------------------------

  /** compare_types: -1, 0 or 1 as the first root sorts before, equal to or after the second. */
  function CompareTypes(a: Descriptor, b: Descriptor): (r: Result<int>)
    ensures r.Ok? <==> a.typeName.Some? && b.typeName.Some?
    ensures r.Raise? ==> r.error == KeyError("type")
  {
    if a.typeName.None? || b.typeName.None? then Raise(KeyError("type"))
    else
      var ra, rb := Root(a.typeName.value), Root(b.typeName.value);
      Ok(if Less(ra, rb) then -1 else if ra == rb then 0 else 1)
  }

  /** Both descriptors have a type. */
  predicate Typed(a: Descriptor, b: Descriptor)
  {
    a.typeName.Some? && b.typeName.Some?
  }

  /**
   * The answer is 0 exactly for equal roots, -1 exactly when the first root
   * is smaller, and 1 exactly when the second is.
   */
  lemma CompareSpec(a: Descriptor, b: Descriptor)
    requires Typed(a, b)
    ensures var r, ra, rb := CompareTypes(a, b).value, Root(a.typeName.value), Root(b.typeName.value);
      (r == 0 <==> ra == rb) && (r == -1 <==> Less(ra, rb)) && (r == 1 <==> Less(rb, ra))
  {
    var ra, rb := Root(a.typeName.value), Root(b.typeName.value);
    LessTotal(ra, rb);
    if Less(ra, rb) {
      LessAsymmetric(ra, rb);
    }
    if ra == rb {
      LessIrreflexive(ra);
    }
  }

  /** Swapping the descriptors negates the answer. */
  lemma CompareAntisymmetric(a: Descriptor, b: Descriptor)
    requires Typed(a, b)
    ensures CompareTypes(a, b).value == -CompareTypes(b, a).value
  {
    CompareSpec(a, b);
    CompareSpec(b, a);
  }

  /** The order compare_types gives is transitive. */
  lemma CompareTransitive(a: Descriptor, b: Descriptor, c: Descriptor)
    requires Typed(a, b) && Typed(b, c)
    requires CompareTypes(a, b).value <= 0 && CompareTypes(b, c).value <= 0
    ensures CompareTypes(a, c).value <= 0
  {
    CompareSpec(a, b);
    CompareSpec(b, c);
    CompareSpec(a, c);
    var ra, rb, rc := Root(a.typeName.value), Root(b.typeName.value), Root(c.typeName.value);
    if Less(ra, rb) && Less(rb, rc) {
      LessTransitive(ra, rb, rc);
    }
  }

  /** Custom types compare by the names after the prefix. */
  lemma CompareCustom(a: Descriptor, b: Descriptor, x: string, y: string)
    requires a.typeName == Some(CustomPrefix + x) && b.typeName == Some(CustomPrefix + y)
    ensures CompareTypes(a, b).value == (if Less(x, y) then -1 else if x == y then 0 else 1)
  {
    RootOfCustom(x);
    RootOfCustom(y);
  }

  // ---------------------------------------------------------------------
  // collect_rows
  // ---------------------------------------------------------------------

  /** A table row: the type's root and the label keys. */
  type Row = (string, seq<string>)

  /** `[k['key'] for k in labels]`. */
  function LabelNames(labels: seq<Label>): (r: Result<seq<string>>)
    ensures r.Ok? <==> forall i | 0 <= i < |labels| :: labels[i].key.Some?
    ensures r.Raise? ==> r.error == KeyError("key")
    ensures r.Ok? ==> |r.value| == |labels| && forall i | 0 <= i < |labels| :: r.value[i] == labels[i].key.value
  {
    if forall i | 0 <= i < |labels| :: labels[i].key.Some?
    then Ok(seq(|labels|, i requires 0 <= i < |labels| => labels[i].key.value))
    else Raise(KeyError("key"))
  }

  /** The row of one descriptor; a missing type or label key raises KeyError. */
  function RowOf(d: Descriptor): Result<Row>
  {
    if d.typeName.None? then Raise(KeyError("type"))
    else
      var names := LabelNames(if d.labels.Some? then d.labels.value else []);
      if names.Raise? then Raise(names.error) else Ok((Root(d.typeName.value), names.value))
  }

  /** The rows of a descriptor list, or the first error. */
  function Rows(descriptors: seq<Descriptor>): Result<seq<Row>>
  {
    Collect(seq(|descriptors|, i requires 0 <= i < |descriptors| => RowOf(descriptors[i])))
  }

  /** Whether a descriptor has a type and every label a key. */
  predicate Tabulable(d: Descriptor)
  {
    d.typeName.Some? && (d.labels.Some? ==> forall i | 0 <= i < |d.labels.value| :: d.labels.value[i].key.Some?)
  }

  /** collect_rows, appending one row per descriptor. */
  method CollectRows(descriptors: seq<Descriptor>) returns (r: Result<seq<Row>>)
    ensures r == Rows(descriptors)
  {
    ghost var rs := seq(|descriptors|, i requires 0 <= i < |descriptors| => RowOf(descriptors[i]));
    var rows: seq<Row> := [];
    for i := 0 to |descriptors|
      invariant Collect(rs[..i]) == Ok(rows)
    {
      var elem := descriptors[i];
      assert rs[..i + 1][..i] == rs[..i] && rs[i] == RowOf(elem);
      if elem.typeName.None? {
        CollectRaisePrefix(rs, i + 1);
        return Raise(KeyError("type"));
      }
      var typeName := Root(elem.typeName.value);
      var labels := if elem.labels.Some? then elem.labels.value else [];
      var labelNames := LabelNames(labels);
      if labelNames.Raise? {
        CollectRaisePrefix(rs, i + 1);
        return Raise(labelNames.error);
      }
      CollectStep(rs, i, rows);
      rows := rows + [(typeName, labelNames.value)];
    }
    assert rs[..|descriptors|] == rs;
    return Ok(rows);
  }

  /**
   * collect_rows succeeds exactly when every descriptor has a type and
   * every label a key; then there is one row per descriptor, in order,
   * holding the type's root and the label keys in order ([] without labels).
   */
  lemma RowsSpec(descriptors: seq<Descriptor>)
    ensures Rows(descriptors).Ok? <==> forall i | 0 <= i < |descriptors| :: Tabulable(descriptors[i])
    ensures Rows(descriptors).Ok? ==> (|Rows(descriptors).value| == |descriptors| &&
      forall i | 0 <= i < |descriptors| ::
        Rows(descriptors).value[i].0 == Root(descriptors[i].typeName.value) &&
        (descriptors[i].labels.None? ==> Rows(descriptors).value[i].1 == []) &&
        (descriptors[i].labels.Some? ==> (|Rows(descriptors).value[i].1| == |descriptors[i].labels.value| &&
          forall j | 0 <= j < |descriptors[i].labels.value| ::
            Rows(descriptors).value[i].1[j] == descriptors[i].labels.value[j].key.value)))
  {
    var rs := seq(|descriptors|, i requires 0 <= i < |descriptors| => RowOf(descriptors[i]));
    CollectSpec(rs);
    assert forall i | 0 <= i < |descriptors| :: rs[i].Ok? <==> Tabulable(descriptors[i]);
  }

  // ---------------------------------------------------------------------
  // BatchResponseHandler
  // ---------------------------------------------------------------------

  /** `cgi.escape(s)`: '&', '<' and '>' become their HTML entities. */
  function Escape(s: string): (r: string)
    ensures |r| >= |s|
  {
    if s == [] then ""
    else
      (if s[0] == '&' then "&amp;" else if s[0] == '<' then "&lt;" else if s[0] == '>' then "&gt;" else [s[0]])
      + Escape(s[1..])
  }

  /** Escaped text holds no '<' or '>', and text without '&', '<' or '>' is left as it is. */
  lemma {:induction false} EscapeSpec(s: string)
    ensures '<' !in Escape(s) && '>' !in Escape(s)
    ensures '&' !in s && '<' !in s && '>' !in s ==> Escape(s) == s
  {
    if s != [] {
      EscapeSpec(s[1..]);
    }
  }

  /** One callback of the batch: the request id, the response and the error. */
  datatype Reply = Reply(id: string, good: Option<string>, bad: Option<string>)

  /** The handler's state: one slot per expected response, and the successes. */
  datatype Slots = Slots(responses: seq<Option<string>>, numOk: nat)

  /** `int(index_str)` rejects a text that is not a decimal number. */
  const InvalidIndex := ValueError("invalid literal for int() with base 10")

  /** Assigning past the end of the response list. */
  const AssignOutOfRange := IndexError("list assignment index out of range")

  /** The line recorded for a reply: 'ERROR' and the escaped error, or 'OK' and the escaped response. */
  function SlotText(reply: Reply): string
  {
    if reply.bad.Some? then "ERROR " + Escape(reply.bad.value)
    else "OK " + Escape(if reply.good.Some? then reply.good.value else "")
  }

  /** Whether `id` is a decimal index below `n`. */
  predicate ValidId(id: string, n: nat)
  {
    |id| > 0 && AllDigits(id) && ParseNat(id) < n
  }

  /**
   * handle_batch_response as a function of the state: the new state and the
   * exception raised, if any. A success is counted before its slot is
   * assigned, so an index past the end still counts it.
   */
  function Handle(s: Slots, reply: Reply): (Slots, Option<Exception>)
  {
    if !(|reply.id| > 0 && AllDigits(reply.id)) then (s, Some(InvalidIndex))
    else
      var index := ParseNat(reply.id);
      var counted := if reply.bad.None? then s.numOk + 1 else s.numOk;
      if index >= |s.responses| then (Slots(s.responses, counted), Some(AssignOutOfRange))
      else (Slots(s.responses[index := Some(SlotText(reply))], counted), None)
  }

  /** The callbacks run in order; the first exception ends the run. */
  function Replay(s: Slots, replies: seq<Reply>): (Slots, Option<Exception>)
    decreases |replies|
  {
    if replies == [] then (s, None)
    else
      var (t, e) := Handle(s, replies[0]);
      if e.Some? then (t, e) else Replay(t, replies[1..])
  }

  /** The number of successful replies. */
  function CountOk(replies: seq<Reply>): (n: nat)
    ensures n <= |replies|
  {
    if replies == [] then 0 else (if replies[0].bad.None? then 1 else 0) + CountOk(replies[1..])
  }

  /** Every reply succeeded exactly when all of them are counted. */
  lemma {:induction false} CountOkAll(replies: seq<Reply>)
    ensures CountOk(replies) == |replies| <==> forall i | 0 <= i < |replies| :: replies[i].bad.None?
  {
    if replies != [] {
      CountOkAll(replies[1..]);
      assert forall i | 1 <= i < |replies| :: replies[i] == replies[1..][i - 1];
    }
  }

  /**
   * With every id a valid index, in any order, no callback raises, the
   * slot count is kept and num_ok grows by exactly the successful replies.
   */
  lemma {:induction false} ReplayCounts(s: Slots, replies: seq<Reply>)
    requires forall i | 0 <= i < |replies| :: ValidId(replies[i].id, |s.responses|)
    ensures Replay(s, replies).1.None?
    ensures |Replay(s, replies).0.responses| == |s.responses|
    ensures Replay(s, replies).0.numOk == s.numOk + CountOk(replies)
    decreases |replies|
  {
    if replies != [] {
      var t := Handle(s, replies[0]).0;
      assert forall i | 0 <= i < |replies| - 1 :: replies[1..][i] == replies[i + 1];
      ReplayCounts(t, replies[1..]);
    }
  }

  /**
   * Replies to the requests k, k + 1, ... in order fill exactly those slots
   * with their lines and leave the others alone.
   */
  lemma {:induction false} ReplayInOrder(s: Slots, replies: seq<Reply>, k: nat) returns (t: Slots)
    requires k + |replies| <= |s.responses|
    requires NumberedFrom(replies, k)
    ensures Replay(s, replies) == (t, None)
    ensures t.responses == InOrderSlots(s.responses, replies, k)
    decreases |replies|
  {
    if replies == [] {
      t := s;
      assert t.responses == InOrderSlots(s.responses, replies, k);
    } else {
      IdsAfter(replies, k);
      var next := HandleAt(s, replies[0], k);
      ReplayStep(s, replies, next);
      var rest := replies[1..];
      t := ReplayInOrder(next, rest, k + 1);
      InOrderStep(s.responses, replies, k);
    }
  }

  /** The ids of the replies are the request numbers k, k + 1, ... in order. */
  ghost predicate NumberedFrom(replies: seq<Reply>, k: nat)
  {
    forall i | 0 <= i < |replies| :: replies[i].id == NatToString(k + i)
  }

  /** Replies numbered from k start at k, and without their first are numbered from k + 1. */
  lemma IdsAfter(replies: seq<Reply>, k: nat)
    requires replies != [] && NumberedFrom(replies, k)
    ensures replies[0].id == NatToString(k)
    ensures NumberedFrom(replies[1..], k + 1)
  {
    assert replies[0].id == NatToString(k + 0);
    forall i | 0 <= i < |replies| - 1
      ensures replies[1..][i].id == NatToString(k + 1 + i)
    {
      assert replies[1..][i] == replies[i + 1];
    }
  }

  /** The slots after replies to requests k, k + 1, ...: theirs hold the replies' lines, the others are left alone. */
  function InOrderSlots(responses: seq<Option<string>>, replies: seq<Reply>, k: nat): (r: seq<Option<string>>)
    ensures |r| == |responses|
  {
    seq(|responses|, j requires 0 <= j < |responses| =>
      if k <= j < k + |replies| then Some(SlotText(replies[j - k])) else responses[j])
  }

  /** Filling slot k first and then the later slots with the rest of the replies fills slots k.. in order. */
  lemma InOrderStep(before: seq<Option<string>>, replies: seq<Reply>, k: nat)
    requires replies != [] && k + |replies| <= |before|
    ensures InOrderSlots(before[k := Some(SlotText(replies[0]))], replies[1..], k + 1) == InOrderSlots(before, replies, k)
  {
    var rest := replies[1..];
    var next := before[k := Some(SlotText(replies[0]))];
    var left, right := InOrderSlots(next, rest, k + 1), InOrderSlots(before, replies, k);
    forall j | 0 <= j < |before| ensures left[j] == right[j] {
      if k < j < k + |replies| {
        assert replies[j - k] == rest[j - (k + 1)];
      }
    }
  }

  /** A reply to request k, in range, fills slot k and counts a success. */
  lemma HandleAt(s: Slots, reply: Reply, k: nat) returns (t: Slots)
    requires k < |s.responses| && reply.id == NatToString(k)
    ensures Handle(s, reply) == (t, None)
    ensures t == Slots(s.responses[k := Some(SlotText(reply))], if reply.bad.None? then s.numOk + 1 else s.numOk)
  {
    ParseNatToString(k);
    t := Handle(s, reply).0;
  }

  /** A callback that raises nothing hands its state to the rest of the run. */
  lemma ReplayStep(s: Slots, replies: seq<Reply>, next: Slots)
    requires replies != [] && Handle(s, replies[0]) == (next, None)
    ensures Replay(s, replies) == Replay(next, replies[1..])
  {
  }

  /** The response list every slot of which is still None. */
  function Fresh(num: nat): Slots
  {
    Slots(seq(num, _ => None), 0)
  }

  /** The response code: 200 when every delete succeeded, else 500. */
  function ResponseCode(numOk: nat, total: nat): (code: int)
    ensures code == 200 || code == 500
    ensures code == 200 <==> numOk == total
  {
    if numOk == total then 200 else 500
  }

  /**
   * When each request gets one reply, in order, every slot holds its
   * reply's line, num_ok counts the successes, and the response is 200
   * exactly when every delete succeeded.
   */
  lemma {:induction false} ClearOutcome(replies: seq<Reply>)
    requires forall i | 0 <= i < |replies| :: replies[i].id == NatToString(i)
    ensures var (s, e) := Replay(Fresh(|replies|), replies);
      e.None? && s.numOk == CountOk(replies)
      && |s.responses| == |replies| && (forall i | 0 <= i < |replies| :: s.responses[i] == Some(SlotText(replies[i])))
      && (ResponseCode(s.numOk, |replies|) == 200 <==> forall i | 0 <= i < |replies| :: replies[i].bad.None?)
  {
    var start := Fresh(|replies|);
    assert NumberedFrom(replies, 0);
    var t := ReplayInOrder(start, replies, 0);
    forall i | 0 <= i < |replies| ensures t.responses[i] == Some(SlotText(replies[i])) {
      assert InOrderSlots(start.responses, replies, 0)[i] == Some(SlotText(replies[i - 0]));
    }
    forall i | 0 <= i < |replies|
      ensures ValidId(replies[i].id, |start.responses|)
    {
      ParseNatToString(i);
    }
    ReplayCounts(start, replies);
    CountOkAll(replies);
  }

  /** BatchResponseHandler: the response list, filled by callbacks, and the count of successes. */
  class BatchResponseHandler {
    const batchResponse: array<Option<string>>
    var numOk: nat

    /** The state as a value. */
    function State(): Slots
      reads this, batchResponse
    {
      Slots(batchResponse[..], numOk)
    }

    /** `[None] * num` and no success yet. */
    constructor(num: nat)
      ensures fresh(batchResponse)
      ensures State() == Fresh(num)
    {
      batchResponse := new Option<string>[num](_ => None);
      numOk := 0;
    }

    /** handle_batch_response: record one reply in its slot, counting a success. */
    method HandleBatchResponse(indexStr: string, good: Option<string>, bad: Option<string>) returns (error: Option<Exception>)
      modifies this, batchResponse
      ensures (State(), error) == Handle(old(State()), Reply(indexStr, good, bad))
    {
      if !(|indexStr| > 0 && AllDigits(indexStr)) {
        return Some(InvalidIndex);
      }
      var index := ParseNat(indexStr);
      if bad.Some? {
        if index >= batchResponse.Length {
          return Some(AssignOutOfRange);
        }
        batchResponse[index] := Some("ERROR " + Escape(bad.value));
      } else {
        numOk := numOk + 1;
        var text := if good.None? then "" else good.value;
        if index >= batchResponse.Length {
          return Some(AssignOutOfRange);
        }
        batchResponse[index] := Some("OK " + Escape(text));
      }
      return None;
    }
  }

  /** A batch's execution delivering its replies to the handler in order, stopping at an exception. */
  method Deliver(handler: BatchResponseHandler, replies: seq<Reply>) returns (error: Option<Exception>)
    modifies handler, handler.batchResponse
    ensures (handler.State(), error) == Replay(old(handler.State()), replies)
  {
    for i := 0 to |replies|
      invariant Replay(handler.State(), replies[i..]) == Replay(old(handler.State()), replies)
    {
      assert replies[i..][1..] == replies[i + 1..];
      var e := handler.HandleBatchResponse(replies[i].id, replies[i].good, replies[i].bad);
      if e.Some? {
        return e;
      }
    }
    return None;
  }

  // ---------------------------------------------------------------------
  // Batching the deletes
  // ---------------------------------------------------------------------

  /** One delete request of a batch: its request id and the descriptor name. */
  datatype DeleteRequest = DeleteRequest(id: string, name: string)

  /** max_batch. */
  const MaxBatch := 100

  /** `[descriptor['name'] for descriptor in ...]`: the names, or KeyError for a descriptor without one. */
  function DescriptorNames(descriptors: seq<Descriptor>): (r: Result<seq<string>>)
    ensures r.Ok? <==> forall i | 0 <= i < |descriptors| :: descriptors[i].name.Some?
    ensures r.Raise? ==> r.error == KeyError("name")
    ensures r.Ok? ==> |r.value| == |descriptors| && forall i | 0 <= i < |descriptors| :: r.value[i] == descriptors[i].name.value
  {
    if forall i | 0 <= i < |descriptors| :: descriptors[i].name.Some?
    then Ok(seq(|descriptors|, i requires 0 <= i < |descriptors| => descriptors[i].name.value))
    else Raise(KeyError("name"))
  }

  /** The requests in the order they are added: request i has id str(i). */
  function Requests(names: seq<string>): (r: seq<DeleteRequest>)
    ensures |r| == |names|
  {
    seq(|names|, i requires 0 <= i < |names| => DeleteRequest(NatToString(i), names[i]))
  }

  /** Consecutive batches of MaxBatch requests, the last one holding the rest. */
  function Chunks<T>(s: seq<T>): seq<seq<T>>
    decreases |s|
  {
    if s == [] then []
    else if |s| <= MaxBatch then [s]
    else [s[..MaxBatch]] + Chunks(s[MaxBatch..])
  }

  /** The requests of the batches, in order. */
  function Flatten<T>(batches: seq<seq<T>>): seq<T>
  {
    if batches == [] then [] else batches[0] + Flatten(batches[1..])
  }

  /** Completing a whole number of batches with one more batch of at most MaxBatch appends it. */
  lemma {:induction false} ChunksAppend<T>(s: seq<T>, c: seq<T>)
    requires |s| % MaxBatch == 0 && 1 <= |c| <= MaxBatch
    ensures Chunks(s + c) == Chunks(s) + [c]
    decreases |s|
  {
    if s != [] {
      var rest := s[MaxBatch..];
      assert |rest| == |s| - MaxBatch && |rest| % MaxBatch == 0;
      assert (s + c)[..MaxBatch] == s[..MaxBatch];
      assert (s + c)[MaxBatch..] == rest + c;
      ChunksAppend(rest, c);
      if rest == [] {
        assert s[..MaxBatch] == s;
      }
    } else {
      assert s + c == c;
    }
  }

  /** The batches hold every request once, in order. */
  lemma {:induction false} ChunksFlatten<T>(s: seq<T>)
    ensures Flatten(Chunks(s)) == s
    decreases |s|
  {
    if |s| > MaxBatch {
      ChunksFlatten(s[MaxBatch..]);
      assert s == s[..MaxBatch] + s[MaxBatch..];
    } else if s != [] {
      assert Flatten([s]) == s + Flatten([]);
    }
  }

  /** Each batch holds between one and MaxBatch requests, all but the last exactly MaxBatch. */
  lemma {:induction false} ChunksSizes<T>(s: seq<T>)
    ensures forall j | 0 <= j < |Chunks(s)| :: 1 <= |Chunks(s)[j]| <= MaxBatch
    ensures forall j | 0 <= j < |Chunks(s)| - 1 :: |Chunks(s)[j]| == MaxBatch
    decreases |s|
  {
    if |s| > MaxBatch {
      var rest := s[MaxBatch..];
      ChunksSizes(rest);
      var c := Chunks(s);
      assert c == [s[..MaxBatch]] + Chunks(rest);
      assert forall j | 1 <= j < |c| :: c[j] == Chunks(rest)[j - 1];
    }
  }

  /**
   * There are count / MaxBatch full batches and a final one exactly when
   * count % MaxBatch is not 0, which then holds count % MaxBatch requests.
   */
  lemma {:induction false} ChunksCount<T>(s: seq<T>)
    ensures |Chunks(s)| == |s| / MaxBatch + (if |s| % MaxBatch != 0 then 1 else 0)
    ensures s != [] ==> |Chunks(s)[|Chunks(s)| - 1]| == (if |s| % MaxBatch == 0 then MaxBatch else |s| % MaxBatch)
    decreases |s|
  {
    if |s| > MaxBatch {
      var rest := s[MaxBatch..];
      ChunksCount(rest);
      var c := Chunks(s);
      assert c == [s[..MaxBatch]] + Chunks(rest);
      assert c[|c| - 1] == Chunks(rest)[|Chunks(rest)| - 1];
    }
  }

  /** After whole batches, the count is a multiple of MaxBatch again exactly when the open batch is full. */
  lemma BatchBoundary(start: nat, b: nat)
    requires start % MaxBatch == 0 && 1 <= b <= MaxBatch
    ensures (start + b) % MaxBatch == 0 <==> b == MaxBatch
  {
    var q := start / MaxBatch;
    assert start == q * MaxBatch;
    assert (start + b) / MaxBatch == q + (if b == MaxBatch then 1 else 0);
  }

  /** Running the open batch extends the batches run so far by it. */
  lemma CloseBatch<T>(sent: seq<T>, start: nat, batch: seq<T>)
    requires start % MaxBatch == 0 && 1 <= |batch| <= MaxBatch
    requires start + |batch| <= |sent| && batch == sent[start..start + |batch|]
    ensures Chunks(sent[..start]) + [batch] == Chunks(sent[..start + |batch|])
  {
    ChunksAppend(sent[..start], batch);
    assert sent[..start] + batch == sent[..start + |batch|];
  }

  /**
   * The loop's state after `count` requests: the batches run hold the
   * requests before `start`, a multiple of MaxBatch, and the open batch
   * holds the rest.
   */
  ghost predicate Batching(sent: seq<DeleteRequest>, count: nat, start: nat, batch: seq<DeleteRequest>,
                           executed: seq<seq<DeleteRequest>>)
  {
    count == start + |batch| <= |sent| && start % MaxBatch == 0 && |batch| < MaxBatch
    && batch == sent[start..count] && executed == Chunks(sent[..start])
  }

  /** One turn of the delete loop: add request `count`, and run the batch when it is the MaxBatch-th. */
  method AddDelete(ghost sent: seq<DeleteRequest>, ghost start: nat, executed: seq<seq<DeleteRequest>>,
                   batch: seq<DeleteRequest>, count: nat, name: string)
    returns (nextExecuted: seq<seq<DeleteRequest>>, nextBatch: seq<DeleteRequest>, ghost nextStart: nat)
    requires Batching(sent, count, start, batch, executed)
    requires count < |sent| && sent[count] == DeleteRequest(NatToString(count), name)
    ensures Batching(sent, count + 1, nextStart, nextBatch, nextExecuted)
    ensures (count + 1) % MaxBatch == 0 ==> nextExecuted == executed + [batch + [sent[count]]] && nextBatch == []
    ensures (count + 1) % MaxBatch != 0 ==> nextExecuted == executed && nextBatch == batch + [sent[count]]
  {
    assert sent[start..count + 1] == sent[start..count] + [sent[count]];
    nextBatch := batch + [DeleteRequest(NatToString(count), name)];
    nextExecuted := executed;
    nextStart := start;
    BatchBoundary(start, |nextBatch|);
    if (count + 1) % MaxBatch == 0 {
      CloseBatch(sent, start, nextBatch);
      nextExecuted := executed + [nextBatch];
      nextBatch := [];
      nextStart := count + 1;
    }
  }

  /** The delete loop: add each request, run the batch after every MaxBatch-th, and run a final partial batch. */
  method SendDeletes(names: seq<string>) returns (executed: seq<seq<DeleteRequest>>)
    ensures executed == Chunks(Requests(names))
  {
    ghost var sent := Requests(names);
    ghost var start := 0;
    executed := [];
    var batch: seq<DeleteRequest> := [];
    var count := 0;
    for i := 0 to |names|
      invariant count == i
      invariant Batching(sent, count, start, batch, executed)
    {
      executed, batch, start := AddDelete(sent, start, executed, batch, count, names[i]);
      count := count + 1;
    }
    if count % MaxBatch != 0 {
      CloseBatch(sent, start, batch);
      assert sent[..count] == sent;
      executed := executed + [batch];
    } else {
      assert sent[..count] == sent;
    }
  }

  /** Every request id reads back as the request's position. */
  lemma RequestIds(names: seq<string>)
    ensures forall i | 0 <= i < |names| :: ValidId(Requests(names)[i].id, |names|) && ParseNat(Requests(names)[i].id) == i
  {
    forall i | 0 <= i < |names|
      ensures ValidId(Requests(names)[i].id, |names|) && ParseNat(Requests(names)[i].id) == i
    {
      ParseNatToString(i);
    }
  }
}
