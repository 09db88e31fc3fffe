/**
  The audit log of backend/src/audit: events are appended to hash chains (repository.py) and the chains verified
  (integrity.py).

  SHA-256 over canonical JSON is an abstract function of the content that is hashed, and `json.dumps` of a dictionary
  an abstract function of the dictionary.
 */
module AuditChain {
  import opened Common

  /** A value of an audited field: absent, a scalar in its serialised form, a dictionary, or a `datetime`, known by its
      ISO form. */
  datatype Value = Null | Text(text: string) | Object(entries: map<string, string>) | Moment(iso: string)

  /** The fields that the checksum covers. */
  datatype Fields = Fields(eventId: Value, timestamp: Value, eventType: Value, actorId: Value,
                           resourceType: Value, resourceId: Value, oldValue: Value, newValue: Value)

  /** `rest` holds what the checksum does not cover: severity, actor type, source, metadata and the like. */
  datatype AuditEvent = AuditEvent(fields: Fields, rest: map<string, Value>)

  datatype Content = Content(fields: Fields, sequenceId: int, prevChecksum: Option<string>)

  datatype Codec = Codec(dumps: map<string, string> -> string, sha256: Content -> string)

  datatype Row = Row(fields: Fields, rest: map<string, Value>, sequenceId: int, checksum: string,
                     prevChecksum: Option<string>, chainKey: string)

  datatype Head = Head(checksum: string, sequenceId: int)

  /** The tables audit_logs and audit_chain_head, and the last value of audit_sequence. */
  datatype Store = Store(log: seq<Row>, heads: map<string, Head>, sequence: int)

  const Empty := Store([], map[], 0)

  function SerializeValue(codec: Codec, v: Value): Value {
    match v
    case Object(entries) => Text(codec.dumps(entries))
    case Moment(iso) => Text(iso)
    case _ => v
  }

  function Canonical(codec: Codec, f: Fields): Fields {
    Fields(SerializeValue(codec, f.eventId), SerializeValue(codec, f.timestamp), SerializeValue(codec, f.eventType),
           SerializeValue(codec, f.actorId), SerializeValue(codec, f.resourceType), SerializeValue(codec, f.resourceId),
           SerializeValue(codec, f.oldValue), SerializeValue(codec, f.newValue))
  }

  function ComputeChecksum(codec: Codec, fields: Fields, sequenceId: int, prevChecksum: Option<string>): string {
    codec.sha256(Content(Canonical(codec, fields), sequenceId, prevChecksum))
  }

  /** JSON can encode all covered values; a `datetime` it cannot. */
  predicate Encodable(f: Fields) {
    !(f.eventId.Moment? || f.timestamp.Moment? || f.eventType.Moment? || f.actorId.Moment?
      || f.resourceType.Moment? || f.resourceId.Moment? || f.oldValue.Moment? || f.newValue.Moment?)
  }

  function RowValue(codec: Codec, v: Value): Value {
    if v.Object? then Text(codec.dumps(v.entries)) else v
  }

  /** `_compute_checksum_from_row` serialises dictionaries only, and nothing comes of it when encoding raises. */
  function ChecksumFromRow(codec: Codec, row: Row): Option<string> {
    if !Encodable(row.fields) then None
    else
      var f := row.fields;
      Some(codec.sha256(Content(
        Fields(RowValue(codec, f.eventId), RowValue(codec, f.timestamp), RowValue(codec, f.eventType),
               RowValue(codec, f.actorId), RowValue(codec, f.resourceType), RowValue(codec, f.resourceId),
               RowValue(codec, f.oldValue), RowValue(codec, f.newValue)),
        row.sequenceId, row.prevChecksum)))
  }

  /** A row and the event it was written for have the same checksum, if the row's can be computed. */
  lemma ChecksumsAgree(codec: Codec, row: Row)
    ensures ChecksumFromRow(codec, row).Some? <==> Encodable(row.fields)
    ensures Encodable(row.fields) ==>
              ChecksumFromRow(codec, row).value
              == ComputeChecksum(codec, row.fields, row.sequenceId, row.prevChecksum)
  {
  }

  /** What a row's checksum speaks for. */
  function ContentOf(codec: Codec, row: Row): Content {
    Content(Canonical(codec, row.fields), row.sequenceId, row.prevChecksum)
  }

  /** What of a value is written into the hashed text. */
  function Written(codec: Codec, v: Value): Option<string> {
    match v
    case Null => None
    case Text(text) => Some(text)
    case Object(entries) => Some(codec.dumps(entries))
    case Moment(iso) => Some(iso)
  }

  predicate SameText(codec: Codec, v: Value, w: Value) {
    Written(codec, v) == Written(codec, w)
  }

  /** Two events say the same in each of the eight fields that checksums cover. */
  predicate SaySame(codec: Codec, f: Fields, g: Fields) {
    && SameText(codec, f.eventId, g.eventId) && SameText(codec, f.timestamp, g.timestamp)
    && SameText(codec, f.eventType, g.eventType) && SameText(codec, f.actorId, g.actorId)
    && SameText(codec, f.resourceType, g.resourceType) && SameText(codec, f.resourceId, g.resourceId)
    && SameText(codec, f.oldValue, g.oldValue) && SameText(codec, f.newValue, g.newValue)
  }

  lemma CanonicalIffSaySame(codec: Codec, f: Fields, g: Fields)
    ensures Canonical(codec, f) == Canonical(codec, g) <==> SaySame(codec, f, g)
  {
    hide SerializeValue, SameText;
    SerializedIffSame(codec, f.eventId, g.eventId);
    SerializedIffSame(codec, f.timestamp, g.timestamp);
    SerializedIffSame(codec, f.eventType, g.eventType);
    SerializedIffSame(codec, f.actorId, g.actorId);
    SerializedIffSame(codec, f.resourceType, g.resourceType);
    SerializedIffSame(codec, f.resourceId, g.resourceId);
    SerializedIffSame(codec, f.oldValue, g.oldValue);
    SerializedIffSame(codec, f.newValue, g.newValue);
  }

  lemma SerializedIffSame(codec: Codec, v: Value, w: Value)
    ensures SerializeValue(codec, v) == SerializeValue(codec, w) <==> SameText(codec, v, w)
  {
  }

  /** No two contents hash alike. */
  ghost predicate Injective(codec: Codec) {
    forall c, d :: codec.sha256(c) == codec.sha256(d) ==> c == d
  }

  // --------------------------------------------------------------------------------------------
  // Verification
  // --------------------------------------------------------------------------------------------

  /** `json.dumps` raises on a value it cannot encode. */
  datatype VerifyError = NotEncodable

  datatype ChainError =
    | FirstHasPrevious(sequenceId: int, prevChecksum: string)
    | NotIncreasing(sequenceId: int, prevSequenceId: int)
    | Broken(sequenceId: int, storedPrev: Option<string>, prevChecksum: string)
    | InvalidChecksum(sequenceId: int, stored: string, computed: string)

  /** The row carries its own checksum; the first row follows nothing, and every other row names its predecessor's
      checksum under a larger sequence id. */
  predicate RowValid(codec: Codec, rows: seq<Row>, i: nat)
    requires i < |rows|
  {
    && rows[i].checksum == codec.sha256(ContentOf(codec, rows[i]))
    && if i == 0 then rows[i].prevChecksum == None
       else rows[i - 1].sequenceId < rows[i].sequenceId && rows[i].prevChecksum == Some(rows[i - 1].checksum)
  }

  predicate ChainValid(codec: Codec, rows: seq<Row>) {
    forall i :: 0 <= i < |rows| ==> RowValid(codec, rows, i)
  }

  /** What is wrong between row `i` and the row before it, or the beginning. */
  function LinkErrorsAt(rows: seq<Row>, i: nat): seq<ChainError>
    requires i < |rows|
  {
    var row := rows[i];
    if i == 0 then
      if row.prevChecksum.Some? then [FirstHasPrevious(row.sequenceId, row.prevChecksum.value)] else []
    else
      (if row.sequenceId <= rows[i - 1].sequenceId
       then [NotIncreasing(row.sequenceId, rows[i - 1].sequenceId)] else [])
      + (if row.prevChecksum != Some(rows[i - 1].checksum)
         then [Broken(row.sequenceId, row.prevChecksum, rows[i - 1].checksum)] else [])
  }

  /** The errors of row `i`, in the order they are reported. */
  function ErrorsAt(codec: Codec, rows: seq<Row>, i: nat): seq<ChainError>
    requires i < |rows|
  {
    var row := rows[i];
    var computed := ComputeChecksum(codec, row.fields, row.sequenceId, row.prevChecksum);
    LinkErrorsAt(rows, i)
    + (if row.checksum != computed then [InvalidChecksum(row.sequenceId, row.checksum, computed)] else [])
  }

  function ErrorsUpTo(codec: Codec, rows: seq<Row>, n: nat): seq<ChainError>
    requires n <= |rows|
  {
    if n == 0 then [] else ErrorsUpTo(codec, rows, n - 1) + ErrorsAt(codec, rows, n - 1)
  }

  /** What each kind of error says of row `i`. */
  predicate Describes(codec: Codec, rows: seq<Row>, i: nat, error: ChainError)
    requires i < |rows|
  {
    var row := rows[i];
    match error
    case FirstHasPrevious(id, prev) => i == 0 && id == row.sequenceId && row.prevChecksum == Some(prev)
    case NotIncreasing(id, prevId) =>
      i > 0 && id == row.sequenceId && prevId == rows[i - 1].sequenceId && id <= prevId
    case Broken(id, stored, prev) =>
      i > 0 && id == row.sequenceId && stored == row.prevChecksum && prev == rows[i - 1].checksum
      && stored != Some(prev)
    case InvalidChecksum(id, stored, computed) =>
      id == row.sequenceId && stored == row.checksum && computed == codec.sha256(ContentOf(codec, row))
      && stored != computed
  }

  lemma ErrorsAtDescribe(codec: Codec, rows: seq<Row>, i: nat, error: ChainError)
    requires i < |rows|
    ensures error in ErrorsAt(codec, rows, i) <==> Describes(codec, rows, i, error)
  {
    hide Canonical;
    assert ContentOf(codec, rows[i])
        == Content(Canonical(codec, rows[i].fields), rows[i].sequenceId, rows[i].prevChecksum);
  }

  /** Verification reports an error exactly when it is true of some row. */
  lemma {:induction false} ReportedIffTrue(codec: Codec, rows: seq<Row>, n: nat, error: ChainError)
    requires n <= |rows|
    ensures error in ErrorsUpTo(codec, rows, n) <==> exists i :: 0 <= i < n && Describes(codec, rows, i, error)
  {
    hide ErrorsAt, Describes;
    if n > 0 {
      ReportedIffTrue(codec, rows, n - 1, error);
      ErrorsAtDescribe(codec, rows, n - 1, error);
    }
  }

  lemma NoErrorAtIff(codec: Codec, rows: seq<Row>, i: nat)
    requires i < |rows|
    ensures ErrorsAt(codec, rows, i) == [] <==> RowValid(codec, rows, i)
  {
    hide Canonical;
    assert ContentOf(codec, rows[i])
        == Content(Canonical(codec, rows[i].fields), rows[i].sequenceId, rows[i].prevChecksum);
  }

  lemma {:induction false} NoErrorsIff(codec: Codec, rows: seq<Row>, n: nat)
    requires n <= |rows|
    ensures ErrorsUpTo(codec, rows, n) == [] <==> forall i :: 0 <= i < n ==> RowValid(codec, rows, i)
  {
    hide RowValid, ErrorsAt;
    if n > 0 {
      NoErrorsIff(codec, rows, n - 1);
      NoErrorAtIff(codec, rows, n - 1);
    }
  }

  lemma NoErrorsIffValid(codec: Codec, rows: seq<Row>)
    ensures ErrorsUpTo(codec, rows, |rows|) == [] <==> ChainValid(codec, rows)
  {
    hide RowValid, ErrorsUpTo;
    NoErrorsIff(codec, rows, |rows|);
  }

  lemma NextErrors(codec: Codec, rows: seq<Row>, i: nat)
    requires i < |rows|
    ensures ErrorsUpTo(codec, rows, 0) == []
    ensures ErrorsUpTo(codec, rows, i + 1) == ErrorsUpTo(codec, rows, i) + ErrorsAt(codec, rows, i)
  {
    hide ErrorsAt;
  }

  predicate AllEncodable(rows: seq<Row>) {
    forall i :: 0 <= i < |rows| ==> Encodable(rows[i].fields)
  }

  /** The verdict is the absence of reported errors, and it is exactly the validity of the chain; there is one if and
      only if every row can be encoded. */
  method VerifyChain(codec: Codec, events: seq<Row>) returns (r: Result<(bool, seq<ChainError>), VerifyError>)
    ensures r.Success? <==> AllEncodable(events)
    ensures r.Success? ==> r.value.1 == ErrorsUpTo(codec, events, |events|)
    ensures r.Success? ==> (r.value.0 <==> r.value.1 == [])
    ensures r.Success? ==> (r.value.0 <==> ChainValid(codec, events))
  {
    hide ChainValid, ComputeChecksum, ErrorsUpTo, ChecksumFromRow, Encodable;
    var errors := [];
    assert ErrorsUpTo(codec, events, 0) == [] by { NoErrorsIff(codec, events, 0); }
    var prevSequenceId: Option<int> := None;
    var prevChecksum := "";
    for i := 0 to |events|
      invariant forall k :: 0 <= k < i ==> Encodable(events[k].fields)
      invariant errors == ErrorsUpTo(codec, events, i)
      invariant if i == 0 then prevSequenceId == None else prevSequenceId == Some(events[i - 1].sequenceId)
      invariant i > 0 ==> prevChecksum == events[i - 1].checksum
    {
      var event := events[i];
      ghost var known := errors;
      if i == 0 {
        if event.prevChecksum != None {
          errors := errors + [FirstHasPrevious(event.sequenceId, event.prevChecksum.value)];
        }
      }
      if prevSequenceId.Some? {
        if event.sequenceId <= prevSequenceId.value {
          errors := errors + [NotIncreasing(event.sequenceId, prevSequenceId.value)];
        }
      }
      if i > 0 {
        if event.prevChecksum != Some(prevChecksum) {
          errors := errors + [Broken(event.sequenceId, event.prevChecksum, prevChecksum)];
        }
      }
      assert errors == known + LinkErrorsAt(events, i);
      var computed := ChecksumFromRow(codec, event);
      ChecksumsAgree(codec, event);
      if computed.None? {
        return Failure(NotEncodable);
      }
      if event.checksum != computed.value {
        errors := errors + [InvalidChecksum(event.sequenceId, event.checksum, computed.value)];
      }
      NextErrors(codec, events, i);
      prevSequenceId, prevChecksum := Some(event.sequenceId), event.checksum;
    }
    NoErrorsIffValid(codec, events);
    r := Success((|errors| == 0, errors));
  }

  /** What was valid before later rows were appended, or is read back under a limit, is valid. */
  lemma PrefixValid(codec: Codec, rows: seq<Row>, n: nat)
    requires n <= |rows| && ChainValid(codec, rows)
    ensures ChainValid(codec, rows[..n])
  {
    forall i | 0 <= i < n
      ensures RowValid(codec, rows[..n], i)
    {
      assert RowValid(codec, rows, i);
    }
  }

  lemma SameContentAtEnd(codec: Codec, rows: seq<Row>, others: seq<Row>)
    requires Injective(codec) && ChainValid(codec, rows) && ChainValid(codec, others)
    requires |rows| > 0 && |others| > 0 && rows[|rows| - 1].checksum == others[|others| - 1].checksum
    ensures ContentOf(codec, rows[|rows| - 1]) == ContentOf(codec, others[|others| - 1])
    ensures |rows| == 1 <==> |others| == 1
    ensures |rows| > 1 ==> rows[|rows| - 2].checksum == others[|others| - 2].checksum
  {
    hide Canonical;
    var last, other := rows[|rows| - 1], others[|others| - 1];
    assert RowValid(codec, rows, |rows| - 1) && RowValid(codec, others, |others| - 1);
    assert codec.sha256(ContentOf(codec, last)) == codec.sha256(ContentOf(codec, other));
    assert last.prevChecksum == other.prevChecksum;
  }

  /** With an injective hash, the checksum at the head of a valid chain determines its length and all that its rows'
      checksums cover: no row can be altered, inserted or dropped without changing the head. */
  lemma {:induction false} HeadDeterminesChain(codec: Codec, rows: seq<Row>, others: seq<Row>)
    requires Injective(codec) && ChainValid(codec, rows) && ChainValid(codec, others)
    requires |rows| > 0 && |others| > 0 && rows[|rows| - 1].checksum == others[|others| - 1].checksum
    ensures |rows| == |others|
    ensures forall i :: 0 <= i < |rows| ==>
              ContentOf(codec, rows[i]) == ContentOf(codec, others[i]) && rows[i].checksum == others[i].checksum
  {
    SameContentAtEnd(codec, rows, others);
    if |rows| > 1 {
      var m, n := |rows| - 1, |others| - 1;
      PrefixValid(codec, rows, m);
      PrefixValid(codec, others, n);
      HeadDeterminesChain(codec, rows[..m], others[..n]);
      assert forall i :: 0 <= i < m ==> rows[i] == rows[..m][i] && others[i] == others[..n][i];
    }
  }

  /** And it determines no more: whatever lies outside the covered content can change without changing validity. */
  lemma UncoveredFieldsAreFree(codec: Codec, rows: seq<Row>, others: seq<Row>)
    requires |rows| == |others|
    requires forall i :: 0 <= i < |rows| ==>
               ContentOf(codec, rows[i]) == ContentOf(codec, others[i]) && rows[i].checksum == others[i].checksum
    ensures ChainValid(codec, rows) <==> ChainValid(codec, others)
  {
    forall i | 0 <= i < |rows|
      ensures RowValid(codec, rows, i) <==> RowValid(codec, others, i)
    {
      hide Canonical;
      assert ContentOf(codec, rows[i]) == ContentOf(codec, others[i]);
    }
  }

  // --------------------------------------------------------------------------------------------
  // Persistence
  // --------------------------------------------------------------------------------------------

  /** One persisted event. `skipped` is how many sequence values rolled-back transactions have used up. */
  datatype Request = Request(event: AuditEvent, chainKey: string, skipped: nat)

  function Persist(codec: Codec, s: Store, r: Request): Store {
    var prev := if r.chainKey in s.heads then Some(s.heads[r.chainKey].checksum) else None;
    var id := s.sequence + r.skipped + 1;
    var checksum := ComputeChecksum(codec, r.event.fields, id, prev);
    Store(s.log + [Row(r.event.fields, r.event.rest, id, checksum, prev, r.chainKey)],
          s.heads[r.chainKey := Head(checksum, id)], id)
  }

  function PersistAll(codec: Codec, requests: seq<Request>): Store {
    if |requests| == 0 then Empty
    else Persist(codec, PersistAll(codec, requests[..|requests| - 1]), requests[|requests| - 1])
  }

  /** The rows of one chain, in the order of their sequence ids. */
  function ChainRows(log: seq<Row>, key: string): seq<Row> {
    if |log| == 0 then []
    else
      var rows, last := ChainRows(log[..|log| - 1], key), log[|log| - 1];
      if last.chainKey == key then rows + [last] else rows
  }

  /** The first `limit` rows: the query orders by sequence id and stops. */
  function Oldest(rows: seq<Row>, limit: nat): (oldest: seq<Row>)
    ensures oldest <= rows
    ensures |oldest| == limit || (|oldest| < limit && oldest == rows)
  {
    if limit < |rows| then rows[..limit] else rows
  }

  /** The rows as the SQL queries return them: a timestamp is a `datetime` again, and the event id is under `id`, so
      the checksum code, which asks for `event_id`, sees none. */
  function AsFetched(rows: seq<Row>): (fetched: seq<Row>)
    ensures |fetched| == |rows|
  {
    seq(|rows|, i requires 0 <= i < |rows| => rows[i].(fields := rows[i].fields.(eventId := Null)))
  }

  class AuditRepository {
    const codec: Codec
    var log: seq<Row>
    var heads: map<string, Head>
    var sequence: int

    function State(): Store
      reads this
    {
      Store(log, heads, sequence)
    }

    constructor (codec: Codec)
      ensures this.codec == codec && State() == Empty
    {
      this.codec := codec;
      log, heads, sequence := [], map[], 0;
    }

    method PersistAuditEvent(event: AuditEvent, chainKey: string, skipped: nat)
      returns (sequenceId: int, checksum: string)
      modifies this
      ensures State() == Persist(codec, old(State()), Request(event, chainKey, skipped))
      ensures chainKey in heads && heads[chainKey] == Head(checksum, sequenceId)
    {
      var prevChecksum := None;
      if chainKey in heads {
        prevChecksum := Some(heads[chainKey].checksum);
      }
      sequence := sequence + skipped + 1;
      sequenceId := sequence;
      checksum := ComputeChecksum(codec, event.fields, sequenceId, prevChecksum);
      log := log + [Row(event.fields, event.rest, sequenceId, checksum, prevChecksum, chainKey)];
      heads := heads[chainKey := Head(checksum, sequenceId)];
    }

    /** Verifies at most `limit` rows, the oldest ones, as the query returns them. */
    method VerifyChainIntegrity(chainKey: string, limit: nat) returns (r: Result<(bool, seq<ChainError>), VerifyError>)
      ensures var events := AsFetched(Oldest(ChainRows(log, chainKey), limit));
              && (r.Success? <==> AllEncodable(events))
              && (r.Success? ==>
                    && r.value.1 == ErrorsUpTo(codec, events, |events|)
                    && (r.value.0 <==> r.value.1 == [])
                    && (r.value.0 <==> ChainValid(codec, events)))
    {
      var rows := Oldest(ChainRows(log, chainKey), limit);
      if |rows| == 0 {
        return Success((true, []));
      }
      r := VerifyChain(codec, AsFetched(rows));
    }
  }

  /** Every chain is valid, ends at its head, and holds no sequence id beyond the last one drawn. */
  ghost predicate Intact(codec: Codec, s: Store, key: string) {
    var rows := ChainRows(s.log, key);
    && ChainValid(codec, rows)
    && (key in s.heads <==> |rows| > 0)
    && (|rows| > 0 ==> s.heads[key] == Head(rows[|rows| - 1].checksum, rows[|rows| - 1].sequenceId))
    && (|rows| > 0 ==> rows[|rows| - 1].sequenceId <= s.sequence)
  }

  lemma PersistKeepsIntact(codec: Codec, s: Store, r: Request, key: string)
    requires Intact(codec, s, key)
    ensures Intact(codec, Persist(codec, s, r), key)
  {
    hide Canonical;
    var s' := Persist(codec, s, r);
    var rows := ChainRows(s.log, key);
    assert s'.log[..|s'.log| - 1] == s.log;
    if r.chainKey == key {
      var row := s'.log[|s'.log| - 1];
      var rows' := ChainRows(s'.log, key);
      assert rows' == rows + [row];
      forall i | 0 <= i < |rows'|
        ensures RowValid(codec, rows', i)
      {
        if i < |rows| {
          assert RowValid(codec, rows, i);
        }
      }
    }
  }

  /** The rows in canonical form, every covered value as the event's checksum serialised it. */
  function InCanonicalForm(codec: Codec, rows: seq<Row>): (canonical: seq<Row>)
    ensures |canonical| == |rows|
  {
    seq(|rows|, i requires 0 <= i < |rows| => rows[i].(fields := Canonical(codec, rows[i].fields)))
  }

  /** In canonical form rows can always be encoded, and verify exactly when they are valid. */
  lemma CanonicalRowsVerify(codec: Codec, rows: seq<Row>)
    ensures AllEncodable(InCanonicalForm(codec, rows))
    ensures ChainValid(codec, InCanonicalForm(codec, rows)) <==> ChainValid(codec, rows)
  {
    hide ChainValid;
    var canonical := InCanonicalForm(codec, rows);
    assert forall i :: 0 <= i < |rows| ==> ContentOf(codec, rows[i]) == ContentOf(codec, canonical[i]);
    UncoveredFieldsAreFree(codec, rows, canonical);
  }

  /** Whatever is persisted, under whatever keys, every chain is valid at every time. */
  lemma {:induction false} PersistedChainsIntact(codec: Codec, requests: seq<Request>, key: string)
    ensures Intact(codec, PersistAll(codec, requests), key)
  {
    if |requests| > 0 {
      PersistedChainsIntact(codec, requests[..|requests| - 1], key);
      PersistKeepsIntact(codec, PersistAll(codec, requests[..|requests| - 1]), requests[|requests| - 1], key);
    }
  }

  /** The sequence values drawn by the first `n` requests, those of rolled-back transactions included. */
  function Drawn(requests: seq<Request>, n: nat): nat
    requires n <= |requests|
  {
    if n == 0 then 0 else Drawn(requests, n - 1) + requests[n - 1].skipped + 1
  }

  /** The `n` rows have the last sequence value drawn for each, and the key it was persisted under. */
  predicate RowsDrawn(log: seq<Row>, requests: seq<Request>, n: nat)
    requires n <= |requests|
  {
    && |log| == n
    && forall i :: 0 <= i < n ==>
         log[i].sequenceId == Drawn(requests, i + 1) && log[i].chainKey == requests[i].chainKey
  }

  /** So it is for every row, over all chains together. */
  lemma {:induction false} SequenceIdsAreDrawn(codec: Codec, requests: seq<Request>, n: nat)
    requires n <= |requests|
    ensures var s := PersistAll(codec, requests[..n]);
            s.sequence == Drawn(requests, n) && RowsDrawn(s.log, requests, n)
  {
    if n > 0 {
      SequenceIdsAreDrawn(codec, requests, n - 1);
      assert requests[..n][..n - 1] == requests[..n - 1];
      hide RowsDrawn, Persist;
      var before := PersistAll(codec, requests[..n - 1]);
      DrawnNext(codec, before, requests, n - 1);
    }
  }

  lemma DrawnNext(codec: Codec, s: Store, requests: seq<Request>, n: nat)
    requires n < |requests| && s.sequence == Drawn(requests, n) && RowsDrawn(s.log, requests, n)
    ensures var s' := Persist(codec, s, requests[n]);
            s'.sequence == Drawn(requests, n + 1) && RowsDrawn(s'.log, requests, n + 1)
  {
    hide Persist;
    PersistAppends(codec, s, requests[n]);
    var s' := Persist(codec, s, requests[n]);
    assert forall i :: 0 <= i < n ==> s'.log[i] == s.log[i];
  }

  lemma PersistAppends(codec: Codec, s: Store, r: Request)
    ensures var s' := Persist(codec, s, r);
            && |s'.log| == |s.log| + 1 && s'.log[..|s.log|] == s.log
            && s'.log[|s.log|].sequenceId == s'.sequence == s.sequence + r.skipped + 1
            && s'.log[|s.log|].chainKey == r.chainKey
  {
    hide ComputeChecksum;
  }

  function RequestsOf(requests: seq<Request>, key: string): seq<Request> {
    if |requests| == 0 then []
    else
      var before, last := RequestsOf(requests[..|requests| - 1], key), requests[|requests| - 1];
      if last.chainKey == key then before + [last] else before
  }

  /** Each chain records exactly the events persisted under its key, in order. */
  lemma {:induction false} ChainRecordsItsEvents(codec: Codec, requests: seq<Request>, key: string)
    ensures var rows, mine := ChainRows(PersistAll(codec, requests).log, key), RequestsOf(requests, key);
            && |rows| == |mine|
            && forall i :: 0 <= i < |mine| ==> AuditEvent(rows[i].fields, rows[i].rest) == mine[i].event
  {
    if |requests| > 0 {
      var n := |requests| - 1;
      ChainRecordsItsEvents(codec, requests[..n], key);
      var s, s' := PersistAll(codec, requests[..n]), PersistAll(codec, requests);
      assert s'.log[..|s'.log| - 1] == s.log;
    }
  }

  /** Tamper evidence: a list of rows that verifies and ends at the recorded head of a chain holds exactly the events
      that were persisted under its key, as far as checksums cover them. */
  lemma HeadVouchesForEvents(codec: Codec, requests: seq<Request>, key: string, claimed: seq<Row>)
    requires Injective(codec) && ChainValid(codec, claimed) && |claimed| > 0
    requires var s := PersistAll(codec, requests);
             key in s.heads && s.heads[key].checksum == claimed[|claimed| - 1].checksum
    ensures var mine := RequestsOf(requests, key);
            && |claimed| == |mine|
            && forall i :: 0 <= i < |mine| ==>
                 SaySame(codec, claimed[i].fields, mine[i].event.fields)
  {
    hide Canonical, SaySame;
    PersistedChainsIntact(codec, requests, key);
    ChainRecordsItsEvents(codec, requests, key);
    var rows, mine := ChainRows(PersistAll(codec, requests).log, key), RequestsOf(requests, key);
    HeadDeterminesChain(codec, claimed, rows);
    forall i | 0 <= i < |mine|
      ensures SaySame(codec, claimed[i].fields, mine[i].event.fields)
    {
      assert ContentOf(codec, claimed[i]) == ContentOf(codec, rows[i]);
      CanonicalIffSaySame(codec, claimed[i].fields, mine[i].event.fields);
    }
  }

  /** Rows fetched under those names verify only when there are none, although every stored row is genuine. */
  lemma FetchedRowsVerifyIffNone(codec: Codec, rows: seq<Row>)
    requires Injective(codec) && ChainValid(codec, rows)
    requires forall i :: 0 <= i < |rows| ==> rows[i].fields.eventId != Null
    ensures ChainValid(codec, AsFetched(rows)) <==> rows == []
  {
    if |rows| > 0 {
      var row, fetched := rows[0], AsFetched(rows)[0];
      assert ContentOf(codec, row).fields.eventId != ContentOf(codec, fetched).fields.eventId;
      assert RowValid(codec, rows, 0);
      assert codec.sha256(ContentOf(codec, row)) != codec.sha256(ContentOf(codec, fetched));
      assert !RowValid(codec, AsFetched(rows), 0);
    }
  }

  lemma {:induction false} RequestsOfAreRequests(requests: seq<Request>, key: string)
    ensures forall i :: 0 <= i < |RequestsOf(requests, key)| ==> RequestsOf(requests, key)[i] in requests
  {
    if |requests| > 0 {
      RequestsOfAreRequests(requests[..|requests| - 1], key);
    }
  }

  /** So the repository's own integrity check passes exactly where it looks at nothing: whatever was persisted, its
      verdict on a chain is true if and only if nothing was persisted under the key, or the limit is zero. Events carry
      a `datetime`, and then there is no other verdict either: everywhere else the check raises. */
  lemma IntegrityCheckPassesIff(codec: Codec, requests: seq<Request>, key: string, limit: nat)
    requires Injective(codec)
    requires forall r :: r in requests ==> r.event.fields.eventId != Null
    ensures var events := AsFetched(Oldest(ChainRows(PersistAll(codec, requests).log, key), limit));
            var nothing := RequestsOf(requests, key) == [] || limit == 0;
            && (AllEncodable(events) && ChainValid(codec, events) <==> nothing)
            && (ChainValid(codec, events) <==> nothing)
            && ((forall r :: r in requests ==> r.event.fields.timestamp.Moment?) ==>
                  (AllEncodable(events) <==> nothing))
  {
    hide Canonical, ChainValid, RequestsOf;
    var rows, mine := ChainRows(PersistAll(codec, requests).log, key), RequestsOf(requests, key);
    PersistedChainsIntact(codec, requests, key);
    ChainRecordsItsEvents(codec, requests, key);
    RequestsOfAreRequests(requests, key);
    var oldest := Oldest(rows, limit);
    PrefixValid(codec, rows, |oldest|);
    assert oldest == rows[..|oldest|];
    forall i | 0 <= i < |oldest|
      ensures exists r :: r in requests && oldest[i].fields == r.event.fields
    {
      assert AuditEvent(rows[i].fields, rows[i].rest) == mine[i].event && mine[i] in requests;
    }
    FetchedRowsVerifyIffNone(codec, oldest);
    if |oldest| > 0 && forall r :: r in requests ==> r.event.fields.timestamp.Moment? {
      assert AsFetched(oldest)[0].fields.timestamp.Moment?;
    }
  }
}
