/** The session catalog on disk: records named by the digest of their content, indexes that name the
    records, and a save that may stop after any of its file writes. Encoding and digest are parameters. */
module Catalog {
  import opened Wrappers
  import opened StoreModel

  type Bytes = seq<bv8>

  const BYTE_LIMIT := 32 * 1024 * 1024

  datatype ClientState = ClientState(offsets: map<string, int>, seen: map<string, nat>)

  datatype DeliveryIndex = DeliveryIndex(outbox: seq<string>, dead: seq<string>)

  datatype Content = Content(sessions: map<string, Session>, outbox: seq<Delivery>, dead: seq<Delivery>, client: ClientState)

  datatype Disk = Disk(
    records: map<string, Bytes>,
    index: Option<map<string, string>>,
    client: Option<ClientState>,
    deliveryRecords: map<string, Bytes>,
    deliveryIndex: Option<DeliveryIndex>)

  /** How records are written, read back and named. */
  datatype Codec = Codec(
    session: Session -> Bytes,
    readSession: Bytes -> Option<Session>,
    delivery: Delivery -> Bytes,
    readDelivery: Bytes -> Option<Delivery>,
    digest: Bytes -> string)

  predicate IsHex(c: char) {
    IsDigit(c) || 'a' <= c <= 'f' || 'A' <= c <= 'F'
  }

  predicate IsKey(key: string) {
    |key| == 64 && forall c :: c in key ==> IsHex(c)
  }

  /** A record is named by sixty-four hexadecimal digits. */
  lemma KeyMeaning(key: string)
    ensures IsKey(key) <==> |key| == 64 && forall i :: 0 <= i < 64 ==> key[i] in "0123456789abcdefABCDEF"
  {
    forall c ensures IsHex(c) <==> c in "0123456789abcdefABCDEF" { HexMeaning(c); }
  }

  lemma HexMeaning(c: char)
    ensures IsHex(c) <==> c in "0123456789abcdefABCDEF"
  {}

  /** Among these contents digests are keys that tell them apart. */
  ghost predicate NoCollision(codec: Codec, contents: set<Bytes>) {
    && (forall b :: b in contents ==> IsKey(codec.digest(b)))
    && forall a, b :: a in contents && b in contents && codec.digest(a) == codec.digest(b) ==> a == b
  }

  /** Reading undoes writing, for what is to be saved. */
  ghost predicate RoundTrips(codec: Codec, content: Content) {
    && (forall id :: id in content.sessions ==> ReadsSession(codec, content.sessions[id]))
    && ReadsDeliveries(codec, content.outbox) && ReadsDeliveries(codec, content.dead)
  }

  predicate ReadsSession(codec: Codec, s: Session) {
    codec.readSession(codec.session(s)) == Some(s)
  }

  predicate ReadsDeliveries(codec: Codec, deliveries: seq<Delivery>) {
    forall i :: 0 <= i < |deliveries| ==> codec.readDelivery(codec.delivery(deliveries[i])) == Some(deliveries[i])
  }

  function Encodings(codec: Codec, deliveries: seq<Delivery>): set<Bytes> {
    set i | 0 <= i < |deliveries| :: codec.delivery(deliveries[i])
  }

  /** Everything a save meets or writes: the records on disk and those of the content. */
  function Occurring(codec: Codec, disk: Disk, content: Content): set<Bytes> {
    disk.records.Values + disk.deliveryRecords.Values
    + (set id | id in content.sessions :: codec.session(content.sessions[id]))
    + Encodings(codec, content.outbox) + Encodings(codec, content.dead)
  }

  /** What a save takes for granted of its codec: only about the finitely many contents at hand. */
  ghost predicate Savable(codec: Codec, disk: Disk, content: Content) {
    RoundTrips(codec, content) && NoCollision(codec, Occurring(codec, disk, content))
  }

  // ---------- What a disk holds ----------

  function RecordAt(codec: Codec, records: map<string, Bytes>, key: string): Option<Bytes> {
    if key in records && |records[key]| <= BYTE_LIMIT && codec.digest(records[key]) == key then Some(records[key]) else None
  }

  function SessionAt(codec: Codec, records: map<string, Bytes>, id: string, key: string): Option<Session> {
    var record := RecordAt(codec, records, key);
    if ValidId(id) && IsKey(key) && record.Some? && codec.readSession(record.value).Some?
       && codec.readSession(record.value).value.id == id
    then codec.readSession(record.value) else None
  }

  function DeliveryAt(codec: Codec, records: map<string, Bytes>, key: string): Option<Delivery> {
    var record := RecordAt(codec, records, key);
    if record.Some? then codec.readDelivery(record.value) else None
  }

  ghost predicate ListsSessions(codec: Codec, records: map<string, Bytes>, keys: map<string, string>, sessions: map<string, Session>) {
    keys.Keys == sessions.Keys
    && forall id :: id in keys ==> SessionAt(codec, records, id, keys[id]) == Some(sessions[id])
  }

  ghost predicate ListsDeliveries(codec: Codec, records: map<string, Bytes>, keys: seq<string>, deliveries: seq<Delivery>) {
    |keys| == |deliveries|
    && forall i :: 0 <= i < |keys| ==> DeliveryAt(codec, records, keys[i]) == Some(deliveries[i])
  }

  const NoDeliveries := DeliveryIndex([], [])
  const NoClient := ClientState(map[], map[])

  ghost predicate HoldsDeliveries(codec: Codec, disk: Disk, outbox: seq<Delivery>, dead: seq<Delivery>) {
    var index := if disk.deliveryIndex.Some? then disk.deliveryIndex.value else NoDeliveries;
    && ListsDeliveries(codec, disk.deliveryRecords, index.outbox, outbox)
    && ListsDeliveries(codec, disk.deliveryRecords, index.dead, dead)
  }

  /** The disk holds a catalog that is accepted, and this is what it says. */
  ghost predicate Holds(codec: Codec, disk: Disk, content: Content) {
    && disk.index.Some?
    && ListsSessions(codec, disk.records, disk.index.value, content.sessions)
    && HoldsDeliveries(codec, disk, content.outbox, content.dead)
    && content.client == (if disk.client.Some? then disk.client.value else NoClient)
  }

  lemma ListsOnce(codec: Codec, records: map<string, Bytes>, keys: seq<string>, a: seq<Delivery>, b: seq<Delivery>)
    requires ListsDeliveries(codec, records, keys, a) && ListsDeliveries(codec, records, keys, b)
    ensures a == b
  {
    forall i | 0 <= i < |a| ensures a[i] == b[i] {
      assert DeliveryAt(codec, records, keys[i]) == Some(a[i]);
    }
  }

  /** A disk holds at most one content. */
  lemma HoldsOnce(codec: Codec, disk: Disk, a: Content, b: Content)
    requires Holds(codec, disk, a) && Holds(codec, disk, b)
    ensures a == b
  {
    var index := if disk.deliveryIndex.Some? then disk.deliveryIndex.value else NoDeliveries;
    ListsOnce(codec, disk.deliveryRecords, index.outbox, a.outbox, b.outbox);
    ListsOnce(codec, disk.deliveryRecords, index.dead, a.dead, b.dead);
    forall id | id in a.sessions ensures a.sessions[id] == b.sessions[id] {
      assert SessionAt(codec, disk.records, id, disk.index.value[id]) == Some(a.sessions[id]);
    }
    assert a.sessions == b.sessions;
  }

  // ---------- Writing a record ----------

  function WithRecord(codec: Codec, records: map<string, Bytes>, bytes: Bytes): map<string, Bytes> {
    records[codec.digest(bytes) := bytes]
  }

  /** Every record that bears the digest of its content is still there. */
  ghost predicate Extends(codec: Codec, before: map<string, Bytes>, after: map<string, Bytes>) {
    forall key :: key in before && codec.digest(before[key]) == key ==> key in after && after[key] == before[key]
  }

  /** Writing a record leaves every readable record as it was. */
  lemma WriteKeeps(codec: Codec, records: map<string, Bytes>, bytes: Bytes)
    requires NoCollision(codec, records.Values + {bytes})
    ensures Extends(codec, records, WithRecord(codec, records, bytes))
    ensures forall key :: RecordAt(codec, records, key).Some? ==>
      RecordAt(codec, WithRecord(codec, records, bytes), key) == RecordAt(codec, records, key)
  {
    assert forall key :: key in records ==> records[key] in records.Values;
  }

  lemma WriteValues(codec: Codec, records: map<string, Bytes>, bytes: Bytes, contents: set<Bytes>)
    requires records.Values <= contents && bytes in contents
    ensures WithRecord(codec, records, bytes).Values <= contents
  {}

  lemma ExtendsSessions(codec: Codec, before: map<string, Bytes>, after: map<string, Bytes>, keys: map<string, string>, sessions: map<string, Session>)
    requires Extends(codec, before, after) && ListsSessions(codec, before, keys, sessions)
    ensures ListsSessions(codec, after, keys, sessions)
  {
    forall id | id in keys ensures SessionAt(codec, after, id, keys[id]) == Some(sessions[id]) {
      assert SessionAt(codec, before, id, keys[id]).Some?;
    }
  }

  lemma ExtendsDeliveries(codec: Codec, before: map<string, Bytes>, after: map<string, Bytes>, keys: seq<string>, deliveries: seq<Delivery>)
    requires Extends(codec, before, after) && ListsDeliveries(codec, before, keys, deliveries)
    ensures ListsDeliveries(codec, after, keys, deliveries)
  {
    forall i | 0 <= i < |keys| ensures DeliveryAt(codec, after, keys[i]) == Some(deliveries[i]) {
      assert DeliveryAt(codec, before, keys[i]).Some?;
    }
  }

  lemma WriteLists(codec: Codec, records: map<string, Bytes>, keys: map<string, string>, sessions: map<string, Session>, id: string, s: Session)
    requires NoCollision(codec, records.Values + {codec.session(s)}) && ListsSessions(codec, records, keys, sessions)
    requires ReadsSession(codec, s) && ValidId(id) && s.id == id && |codec.session(s)| <= BYTE_LIMIT
    ensures var bytes := codec.session(s);
            ListsSessions(codec, WithRecord(codec, records, bytes), keys[id := codec.digest(bytes)], sessions[id := s])
  {
    var bytes := codec.session(s);
    WriteKeeps(codec, records, bytes);
    ExtendsSessions(codec, records, WithRecord(codec, records, bytes), keys, sessions);
    ListsOneMore(codec, WithRecord(codec, records, bytes), keys, sessions, id, codec.digest(bytes), s);
  }

  lemma ListsOneMore(codec: Codec, records: map<string, Bytes>, keys: map<string, string>, sessions: map<string, Session>, id: string, key: string, s: Session)
    requires ListsSessions(codec, records, keys, sessions) && SessionAt(codec, records, id, key) == Some(s)
    ensures ListsSessions(codec, records, keys[id := key], sessions[id := s])
  {}

  /** The records of these deliveries are on disk under these keys, whatever their size. */
  ghost predicate Wrote(codec: Codec, records: map<string, Bytes>, keys: seq<string>, deliveries: seq<Delivery>) {
    |keys| == |deliveries|
    && forall i :: 0 <= i < |keys| ==>
      keys[i] == codec.digest(codec.delivery(deliveries[i])) && keys[i] in records && records[keys[i]] == codec.delivery(deliveries[i])
  }

  lemma WroteOneMore(codec: Codec, records: map<string, Bytes>, keys: seq<string>, deliveries: seq<Delivery>, d: Delivery)
    requires NoCollision(codec, records.Values + {codec.delivery(d)}) && Wrote(codec, records, keys, deliveries)
    ensures var bytes := codec.delivery(d);
            Wrote(codec, WithRecord(codec, records, bytes), keys + [codec.digest(bytes)], deliveries + [d])
  {
    WriteKeeps(codec, records, codec.delivery(d));
    ExtendsWrote(codec, records, WithRecord(codec, records, codec.delivery(d)), keys, deliveries);
  }

  lemma ExtendsWrote(codec: Codec, before: map<string, Bytes>, after: map<string, Bytes>, keys: seq<string>, deliveries: seq<Delivery>)
    requires Extends(codec, before, after) && Wrote(codec, before, keys, deliveries)
    ensures Wrote(codec, after, keys, deliveries)
  {}

  predicate Fit(codec: Codec, deliveries: seq<Delivery>) {
    forall i :: 0 <= i < |deliveries| ==> |codec.delivery(deliveries[i])| <= BYTE_LIMIT
  }

  /** Written deliveries can be read back exactly when each record fits the limit that only the
      reader checks. */
  lemma WroteLists(codec: Codec, records: map<string, Bytes>, keys: seq<string>, deliveries: seq<Delivery>)
    requires ReadsDeliveries(codec, deliveries) && Wrote(codec, records, keys, deliveries)
    ensures Fit(codec, deliveries) ==> ListsDeliveries(codec, records, keys, deliveries)
    ensures !Fit(codec, deliveries) ==> forall any :: !ListsDeliveries(codec, records, keys, any)
  {
    if !Fit(codec, deliveries) {
      var i :| 0 <= i < |deliveries| && |codec.delivery(deliveries[i])| > BYTE_LIMIT;
      assert DeliveryAt(codec, records, keys[i]).None?;
    }
  }

  // ---------- Deleting a record ----------

  /** Records of the saved sessions that no index entry names, and files that are no sessions at all;
      the records of sessions that were removed stay. */
  predicate IsStale(codec: Codec, key: string, bytes: Bytes, keys: map<string, string>) {
    && IsKey(key) && key !in keys.Values && |bytes| <= BYTE_LIMIT
    && (codec.readSession(bytes).Some? ==> codec.readSession(bytes).value.id in keys)
  }

  predicate IsRecordOf(codec: Codec, key: string, bytes: Bytes, id: string) {
    && IsKey(key) && |bytes| <= BYTE_LIMIT
    && codec.readSession(bytes).Some? && codec.readSession(bytes).value.id == id
  }

  function StaleKeys(codec: Codec, records: map<string, Bytes>, keys: map<string, string>): set<string> {
    set key | key in records && IsStale(codec, key, records[key], keys)
  }

  function RecordsOf(codec: Codec, records: map<string, Bytes>, id: string): set<string> {
    set key | key in records && IsRecordOf(codec, key, records[key], id)
  }

  predicate IsUnnamed(key: string, names: DeliveryIndex) {
    IsKey(key) && key !in names.outbox && key !in names.dead
  }

  function UnnamedKeys(records: map<string, Bytes>, names: DeliveryIndex): set<string> {
    set key | key in records && IsUnnamed(key, names)
  }

  // ---------- What a save needs ----------

  predicate NamedRight(sessions: map<string, Session>) {
    forall id :: id in sessions ==> ValidId(id) && sessions[id].id == id
  }

  predicate FitSessions(codec: Codec, sessions: map<string, Session>) {
    forall id :: id in sessions ==> |codec.session(sessions[id])| <= BYTE_LIMIT
  }

  function KeysOf(codec: Codec, sessions: map<string, Session>): map<string, string> {
    map id | id in sessions :: codec.digest(codec.session(sessions[id]))
  }

  function Digests(codec: Codec, deliveries: seq<Delivery>): seq<string> {
    seq(|deliveries|, i requires 0 <= i < |deliveries| => codec.digest(codec.delivery(deliveries[i])))
  }

  function NamesOf(codec: Codec, outbox: seq<Delivery>, dead: seq<Delivery>): DeliveryIndex {
    DeliveryIndex(Digests(codec, outbox), Digests(codec, dead))
  }

  lemma WroteDigests(codec: Codec, records: map<string, Bytes>, keys: seq<string>, deliveries: seq<Delivery>)
    requires Wrote(codec, records, keys, deliveries)
    ensures keys == Digests(codec, deliveries)
  {}

  /** One record for every session and delivery, the client state and the two indexes. */
  function Writes(content: Content): nat {
    |content.sessions| + |content.outbox| + |content.dead| + 3
  }

  /** The records that were on disk before and that the saved catalog makes superfluous. */
  function Deletions(codec: Codec, disk: Disk, content: Content): nat {
    |StaleKeys(codec, disk.records, KeysOf(codec, content.sessions))|
    + |UnnamedKeys(disk.deliveryRecords, NamesOf(codec, content.outbox, content.dead))|
  }

  /** Nothing differs but what these keys name. */
  ghost predicate OnlyUnder(before: map<string, Bytes>, after: map<string, Bytes>, keys: set<string>) {
    forall key :: key !in keys ==> (key in after <==> key in before) && (key in after ==> after[key] == before[key])
  }

  ghost predicate Keyed(codec: Codec, keys: map<string, string>, saved: map<string, Session>) {
    && keys.Keys == saved.Keys && NamedRight(saved) && FitSessions(codec, saved)
    && forall id :: id in keys ==> keys[id] == codec.digest(codec.session(saved[id]))
  }

  /** These sessions have their records, and no other record was written. */
  ghost predicate Recorded(codec: Codec, before: map<string, Bytes>, records: map<string, Bytes>, keys: map<string, string>, saved: map<string, Session>) {
    && ListsSessions(codec, records, keys, saved) && Keyed(codec, keys, saved)
    && OnlyUnder(before, records, keys.Values) && Extends(codec, before, records)
  }

  ghost predicate Refused(codec: Codec, error: SaveError, sessions: map<string, Session>) {
    || (error == InvalidData && !NamedRight(sessions))
    || (error == FileTooLarge && !FitSessions(codec, sessions))
  }

  /** Some of these records are gone, and nothing else changed. */
  ghost predicate Deleted(before: map<string, Bytes>, after: map<string, Bytes>, some: set<string>) {
    && (forall key :: key in after ==> key in before && after[key] == before[key])
    && forall key :: key in before && key !in after ==> key in some
  }

  /** Some of the records to delete are gone, and any others of them are among the rest to look at. */
  ghost predicate Removing(before: map<string, Bytes>, records: map<string, Bytes>, all: set<string>, rest: set<string>) {
    all <= before.Keys && rest <= records.Keys && all * records.Keys <= rest && Deleted(before, records, all)
  }

  lemma RemovingOn(before: map<string, Bytes>, records: map<string, Bytes>, all: set<string>, rest: set<string>, key: string)
    requires Removing(before, records, all, rest) && key in rest
    ensures records[key] == before[key]
    ensures if key in all
            then && Removing(before, records - {key}, all, rest - {key})
                 && |records| > |before| - |all| && |records - {key}| == |records| - 1
            else Removing(before, records, all, rest - {key})
  {
    if key in all {
      DeletedSize(before, records - {key}, all);
      assert (records - {key}).Keys == records.Keys - {key};
      assert |records| == |records.Keys| && |records - {key}| == |records.Keys - {key}|;
    }
  }

  lemma DeletedSize(before: map<string, Bytes>, records: map<string, Bytes>, some: set<string>)
    requires Deleted(before, records, some) && some <= before.Keys
    ensures |before| - |some| <= |records| <= |before|
    ensures records.Keys !! some ==> |records| == |before| - |some|
  {
    var gone := before.Keys - records.Keys;
    var stays := some - gone;
    assert before.Keys == records.Keys + gone && some == gone + stays;
    assert |before| == |before.Keys| && |records| == |records.Keys|;
  }

  lemma Removed(before: map<string, Bytes>, records: map<string, Bytes>, all: set<string>)
    requires Removing(before, records, all, {})
    ensures records == before - all && |records| == |before| - |all|
  {
    forall key | key in all ensures key !in records {
      assert key in all * records.Keys <==> key in records;
    }
    DeletedSize(before, records, all);
  }

  lemma StaleDeleted(codec: Codec, before: map<string, Bytes>, records: map<string, Bytes>, keys: map<string, string>, sessions: map<string, Session>)
    requires Deleted(before, records, StaleKeys(codec, before, keys))
    ensures ListsSessions(codec, before, keys, sessions) ==> ListsSessions(codec, records, keys, sessions)
  {
    if ListsSessions(codec, before, keys, sessions) {
      forall id | id in keys ensures SessionAt(codec, records, id, keys[id]) == Some(sessions[id]) {
        assert keys[id] in keys.Values;
        assert SessionAt(codec, before, id, keys[id]).Some?;
      }
    }
  }

  lemma UnnamedDeleted(codec: Codec, before: map<string, Bytes>, records: map<string, Bytes>, names: DeliveryIndex, keys: seq<string>, deliveries: seq<Delivery>)
    requires Deleted(before, records, UnnamedKeys(before, names)) && (keys == names.outbox || keys == names.dead)
    ensures ListsDeliveries(codec, records, keys, deliveries) <==> ListsDeliveries(codec, before, keys, deliveries)
  {
    forall i | 0 <= i < |keys| ensures DeliveryAt(codec, records, keys[i]) == DeliveryAt(codec, before, keys[i]) {
      assert keys[i] in keys;
    }
  }

  /** A cleanup, however far it comes, keeps what the indexes name and the records of sessions that are not
      in the catalog. */
  lemma CleanedUp(codec: Codec, before: Disk, after: Disk, keys: map<string, string>, names: DeliveryIndex)
    requires Deleted(before.records, after.records, StaleKeys(codec, before.records, keys))
    requires Deleted(before.deliveryRecords, after.deliveryRecords, UnnamedKeys(before.deliveryRecords, names))
    ensures forall sessions :: ListsSessions(codec, before.records, keys, sessions) ==> ListsSessions(codec, after.records, keys, sessions)
    ensures forall some :: ListsDeliveries(codec, after.deliveryRecords, names.outbox, some) <==> ListsDeliveries(codec, before.deliveryRecords, names.outbox, some)
    ensures forall some :: ListsDeliveries(codec, after.deliveryRecords, names.dead, some) <==> ListsDeliveries(codec, before.deliveryRecords, names.dead, some)
    ensures forall id, key :: id !in keys && key in RecordsOf(codec, before.records, id) ==> key in after.records
  {
    forall sessions { StaleDeleted(codec, before.records, after.records, keys, sessions); }
    forall some { UnnamedDeleted(codec, before.deliveryRecords, after.deliveryRecords, names, names.outbox, some); }
    forall some { UnnamedDeleted(codec, before.deliveryRecords, after.deliveryRecords, names, names.dead, some); }
  }

  /** Every session record that is left, and every delivery record, is named by its index, or is none of the
      catalog's: not named like a record, too large to be read, or of a session that is not in it. */
  ghost predicate Tidy(codec: Codec, disk: Disk) {
    && disk.index.Some? && disk.deliveryIndex.Some?
    && (forall key :: key in disk.records && key !in disk.index.value.Values ==>
          || !IsKey(key) || |disk.records[key]| > BYTE_LIMIT
          || (codec.readSession(disk.records[key]).Some? && codec.readSession(disk.records[key]).value.id !in disk.index.value))
    && forall key :: key in disk.deliveryRecords ==>
         !IsKey(key) || key in disk.deliveryIndex.value.outbox || key in disk.deliveryIndex.value.dead
  }

  lemma TidyAfter(codec: Codec, before: Disk, after: Disk, keys: map<string, string>, names: DeliveryIndex)
    requires after.index == Some(keys) && after.deliveryIndex == Some(names)
    requires after.records == before.records - StaleKeys(codec, before.records, keys)
    requires after.deliveryRecords == before.deliveryRecords - UnnamedKeys(before.deliveryRecords, names)
    ensures Tidy(codec, after)
  {}

  lemma UnnamedBefore(before: map<string, Bytes>, after: map<string, Bytes>, names: DeliveryIndex)
    requires forall key :: key !in names.outbox && key !in names.dead ==> (key in after <==> key in before)
    ensures UnnamedKeys(after, names) == UnnamedKeys(before, names)
  {}

  // ---------- Saving ----------

  /** What the disk holds between the writes of a save: the client state is written first, then the
      deliveries, then the sessions. */
  function Mix(was: Content, content: Content, stage: nat): Content {
    Content(
      if stage >= 3 then content.sessions else was.sessions,
      if stage >= 2 then content.outbox else was.outbox,
      if stage >= 2 then content.dead else was.dead,
      if stage >= 1 then content.client else was.client)
  }

  ghost predicate AtStage(codec: Codec, disk: Disk, was: Content, content: Content, stage: nat) {
    if stage < 2 || Fit(codec, content.outbox + content.dead) then Holds(codec, disk, Mix(was, content, stage))
    else forall any :: !Holds(codec, disk, any)
  }

  /** Once an index names the written deliveries, they are what the disk holds if they fit; else it
      holds none. */
  lemma NamedDeliveries(codec: Codec, disk: Disk, names: DeliveryIndex, content: Content)
    requires RoundTrips(codec, content) && disk.deliveryIndex == Some(names)
    requires Wrote(codec, disk.deliveryRecords, names.outbox, content.outbox)
    requires Wrote(codec, disk.deliveryRecords, names.dead, content.dead)
    ensures Fit(codec, content.outbox + content.dead) ==> HoldsDeliveries(codec, disk, content.outbox, content.dead)
    ensures !Fit(codec, content.outbox + content.dead) ==> forall outbox, dead :: !HoldsDeliveries(codec, disk, outbox, dead)
  {
    WroteLists(codec, disk.deliveryRecords, names.outbox, content.outbox);
    WroteLists(codec, disk.deliveryRecords, names.dead, content.dead);
    FitBoth(codec, content.outbox, content.dead);
  }

  lemma SessionsWritten(codec: Codec, before: Disk, after: Disk, was: Content, content: Content)
    requires after == before.(records := after.records) && Extends(codec, before.records, after.records)
    ensures Holds(codec, before, was) ==> Holds(codec, after, was) && AtStage(codec, after, was, content, 0)
  {
    if Holds(codec, before, was) {
      ExtendsSessions(codec, before.records, after.records, before.index.value, was.sessions);
    }
    assert Mix(was, content, 0) == was;
  }

  lemma DeliveriesWritten(codec: Codec, before: Disk, after: Disk, content: Content)
    requires after == before.(deliveryRecords := after.deliveryRecords) && Extends(codec, before.deliveryRecords, after.deliveryRecords)
    ensures Holds(codec, before, content) ==> Holds(codec, after, content)
  {
    if Holds(codec, before, content) {
      var names := if before.deliveryIndex.Some? then before.deliveryIndex.value else NoDeliveries;
      ExtendsDeliveries(codec, before.deliveryRecords, after.deliveryRecords, names.outbox, content.outbox);
      ExtendsDeliveries(codec, before.deliveryRecords, after.deliveryRecords, names.dead, content.dead);
    }
  }

  lemma ClientWritten(codec: Codec, disk: Disk, was: Content, content: Content)
    ensures Holds(codec, disk, was) ==> Holds(codec, disk.(client := Some(content.client)), Mix(was, content, 1))
  {}

  /** A cleanup that has so many files to delete either deletes them, or stops when no more deletions are
      left to it, or ends at the deletion that fails. */
  ghost predicate CleanupBudget(r: Result<(), SaveError>, fault: Option<nat>, before: nat, left: nat, deletions: nat) {
    match r
    case Ok(_) => before == left + deletions
    case Err(error) => (error == Stopped && left == 0 && before < deletions) || (error == DeleteFailed && fault.Some? && before <= left + deletions)
  }

  datatype SaveError = Stopped | InvalidData | FileTooLarge | DeleteFailed

  /** The deletions of the two cleanups that fail with an error, if they come so far. */
  datatype Faults = Faults(sessions: Option<nat>, deliveries: Option<nat>)

  /** Whether the encoded index files fit the limit. */
  datatype Sizes = Sizes(client: bool, deliveries: bool, sessions: bool)

  class Files {
    const codec: Codec
    var records: map<string, Bytes>
    var index: Option<map<string, string>>
    var client: Option<ClientState>
    var deliveryRecords: map<string, Bytes>
    var deliveryIndex: Option<DeliveryIndex>
    /** How many more files are written or deleted before everything stops. */
    var left: nat

    ghost function Snapshot(): Disk
      reads this
    {
      Disk(records, index, client, deliveryRecords, deliveryIndex)
    }

    constructor (codec: Codec, disk: Disk, left: nat)
      ensures this.codec == codec && Snapshot() == disk && this.left == left
    {
      this.codec := codec;
      records, index, client := disk.records, disk.index, disk.client;
      deliveryRecords, deliveryIndex := disk.deliveryRecords, disk.deliveryIndex;
      this.left := left;
    }

    method Spend() returns (ok: bool)
      modifies this`left
      ensures ok == (old(left) > 0) && left == if ok then old(left) - 1 else 0
    {
      ok := left > 0;
      if ok { left := left - 1; }
    }

    /** What each error of a save means at the stage it came to. */
    ghost predicate Reason(error: SaveError, stage: nat, content: Content, sizes: Sizes)
      reads this
    {
      match error
      case InvalidData => stage == 0 && !NamedRight(content.sessions)
      case FileTooLarge =>
        || (stage == 0 && (!FitSessions(codec, content.sessions) || !sizes.client))
        || (stage == 1 && !sizes.deliveries) || (stage == 2 && !sizes.sessions)
      case Stopped => left == 0
      case DeleteFailed => false
    }

    /** A save that stops anywhere, or fails, leaves what the disk held or what was to be saved:
        client state, deliveries and sessions each as a whole, in that order. The result is accepted
        exactly unless the new deliveries are named and one of them exceeds the reader's limit. How far it
        comes is decided by the IDs, the sizes and how many files it may write; it succeeds when it may
        also delete what is superfluous. */
    method Save(content: Content, sizes: Sizes, faults: Faults, ghost was: Content) returns (r: Result<(), SaveError>, ghost stage: nat)
      requires Savable(codec, Snapshot(), content)
      modifies this
      ensures stage <= 3 && (r.Ok? ==> stage == 3)
      ensures stage >= 1 <==>
        NamedRight(content.sessions) && FitSessions(codec, content.sessions) && sizes.client && old(left) > |content.sessions|
      ensures stage >= 2 <==> stage >= 1 && sizes.deliveries && old(left) >= Writes(content) - 1
      ensures stage == 3 <==> stage >= 2 && sizes.sessions && old(left) >= Writes(content)
      ensures stage == 3 && old(left) >= Writes(content) + Deletions(codec, old(Snapshot()), content) ==> r.Ok?
      ensures r.Ok? && faults == Faults(None, None) ==>
        Tidy(codec, Snapshot()) && old(left) == left + Writes(content) + Deletions(codec, old(Snapshot()), content)
      ensures r.Err? ==> Reason(r.error, stage, content, sizes)
      ensures old(Holds(codec, Snapshot(), was)) ==> AtStage(codec, Snapshot(), was, content, stage)
      ensures stage == 3 && Fit(codec, content.outbox + content.dead) ==> Holds(codec, Snapshot(), content)
    {
      stage := 0;
      ghost var all := Occurring(codec, Snapshot(), content);
      var keys: map<string, string>;
      r, keys := SaveSessions(content.sessions, all);
      SessionsWritten(codec, old(Snapshot()), Snapshot(), was, content);
      if r.Err? { return; }
      KeysRecorded(codec, old(records), records, keys, content.sessions);
      r, stage := SaveIndexes(content, keys, sizes, faults, was, all);
    }

    /** Everything but the sessions' records, once those are written. */
    method SaveIndexes(content: Content, keys: map<string, string>, sizes: Sizes, faults: Faults, ghost was: Content, ghost all: set<Bytes>)
      returns (r: Result<(), SaveError>, ghost stage: nat)
      requires ListsSessions(codec, records, keys, content.sessions)
      requires RoundTrips(codec, content) && NoCollision(codec, all) && deliveryRecords.Values <= all
      requires Encodings(codec, content.outbox) <= all && Encodings(codec, content.dead) <= all
      modifies this`client, this`records, this`deliveryRecords, this`deliveryIndex, this`index, this`left
      ensures stage <= 3 && (r.Ok? ==> stage == 3)
      ensures stage >= 1 <==> sizes.client && old(left) > 0
      ensures stage >= 2 <==> stage >= 1 && sizes.deliveries && old(left) > |content.outbox| + |content.dead| + 1
      ensures stage == 3 <==> stage >= 2 && sizes.sessions && old(left) > |content.outbox| + |content.dead| + 2
      ensures var deletions := |old(StaleKeys(codec, records, keys))| + |old(UnnamedKeys(deliveryRecords, NamesOf(codec, content.outbox, content.dead)))|;
              var writes := |content.outbox| + |content.dead| + 3;
              && (stage == 3 && old(left) >= writes + deletions ==> r.Ok?)
              && (r.Ok? && faults == Faults(None, None) ==> Tidy(codec, Snapshot()) && old(left) == left + writes + deletions)
      ensures r.Err? ==> r.error != InvalidData && Reason(r.error, stage, content, sizes)
      ensures old(Holds(codec, Snapshot(), was)) ==> AtStage(codec, Snapshot(), was, content, stage)
      ensures stage == 3 && Fit(codec, content.outbox + content.dead) ==> Holds(codec, Snapshot(), content)
    {
      stage := 0;
      assert Mix(was, content, 0) == was;
      if !sizes.client { return Err(FileTooLarge), 0; }
      var ok := Spend();
      if !ok { return Err(Stopped), 0; }
      ClientWritten(codec, Snapshot(), was, content);
      client := Some(content.client);
      r, stage := SaveRest(content, keys, sizes, faults, was, all);
    }

    /** Deliveries, then the two indexes, once the sessions' records and the client state are written. */
    method SaveRest(content: Content, keys: map<string, string>, sizes: Sizes, faults: Faults, ghost was: Content, ghost all: set<Bytes>)
      returns (r: Result<(), SaveError>, ghost stage: nat)
      requires client == Some(content.client) && ListsSessions(codec, records, keys, content.sessions)
      requires RoundTrips(codec, content) && NoCollision(codec, all) && deliveryRecords.Values <= all
      requires Encodings(codec, content.outbox) <= all && Encodings(codec, content.dead) <= all
      modifies this`records, this`deliveryRecords, this`deliveryIndex, this`index, this`left
      ensures 1 <= stage <= 3 && (r.Ok? ==> stage == 3)
      ensures stage >= 2 <==> sizes.deliveries && old(left) > |content.outbox| + |content.dead|
      ensures stage == 3 <==> stage >= 2 && sizes.sessions && old(left) > |content.outbox| + |content.dead| + 1
      ensures var deletions := |old(StaleKeys(codec, records, keys))| + |old(UnnamedKeys(deliveryRecords, NamesOf(codec, content.outbox, content.dead)))|;
              var writes := |content.outbox| + |content.dead| + 2;
              && (stage == 3 && old(left) >= writes + deletions ==> r.Ok?)
              && (r.Ok? && faults == Faults(None, None) ==> Tidy(codec, Snapshot()) && old(left) == left + writes + deletions)
      ensures r.Err? ==> r.error != InvalidData && Reason(r.error, stage, content, sizes)
      ensures old(Holds(codec, Snapshot(), Mix(was, content, 1))) ==> AtStage(codec, Snapshot(), was, content, stage)
      ensures stage == 3 && Fit(codec, content.outbox + content.dead) ==> Holds(codec, Snapshot(), content)
    {
      stage := 1;
      var names: DeliveryIndex;
      r, names := SaveDeliveries(content.outbox, content.dead, all);
      DeliveriesWritten(codec, old(Snapshot()), Snapshot(), Mix(was, content, 1));
      if r.Err? { return; }
      UnnamedBefore(old(deliveryRecords), deliveryRecords, names);
      if !sizes.deliveries { return Err(FileTooLarge), 1; }
      var ok := Spend();
      if !ok { return Err(Stopped), 1; }
      deliveryIndex := Some(names);
      NamedDeliveries(codec, Snapshot(), names, content);
      stage := 2;
      if !sizes.sessions { return Err(FileTooLarge), 2; }
      ok := Spend();
      if !ok { return Err(Stopped), 2; }
      stage := 3;
      r := Publish(content, keys, names, faults);
    }

    /** The session index, the last write, and the cleanup. */
    method Publish(content: Content, keys: map<string, string>, names: DeliveryIndex, faults: Faults) returns (r: Result<(), SaveError>)
      requires client == Some(content.client) && deliveryIndex == Some(names) && ListsSessions(codec, records, keys, content.sessions)
      modifies this`records, this`deliveryRecords, this`index, this`left
      ensures var deletions := |old(StaleKeys(codec, records, keys))| + |old(UnnamedKeys(deliveryRecords, names))|;
              && (r.Ok? <== old(left) >= deletions)
              && (r.Ok? && faults == Faults(None, None) ==> Tidy(codec, Snapshot()) && old(left) == left + deletions)
      ensures r.Err? ==> r.error == Stopped && left == 0
      ensures old(HoldsDeliveries(codec, Snapshot(), content.outbox, content.dead)) ==> Holds(codec, Snapshot(), content)
      ensures forall outbox, dead :: HoldsDeliveries(codec, Snapshot(), outbox, dead) <==> old(HoldsDeliveries(codec, Snapshot(), outbox, dead))
    {
      index := Some(keys);
      ghost var complete;
      r, complete := Cleanup(keys, names, faults);
      CleanedUp(codec, old(Snapshot()), Snapshot(), keys, names);
      if complete { TidyAfter(codec, old(Snapshot()), Snapshot(), keys, names); }
    }

    method SaveSessions(sessions: map<string, Session>, ghost all: set<Bytes>)
      returns (r: Result<(), SaveError>, keys: map<string, string>)
      requires NoCollision(codec, all) && records.Values <= all
      requires forall id :: id in sessions ==> ReadsSession(codec, sessions[id]) && codec.session(sessions[id]) in all
      modifies this`records, this`left
      ensures Extends(codec, old(records), records)
      ensures r.Ok? ==> Recorded(codec, old(records), records, keys, sessions) && old(left) == left + |sessions|
      ensures r.Err? ==> Refused(codec, r.error, sessions) || (r.error == Stopped && left == 0 && old(left) < |sessions|)
    {
      keys := map[];
      var rest := sessions.Keys;
      ghost var saved: map<string, Session> := map[];
      while rest != {}
        invariant SavedBut(saved, sessions, rest)
        invariant records.Values <= all && left + |saved| == old(left)
        invariant Recorded(codec, old(records), records, keys, saved)
      {
        var id :| id in rest;
        var key := WriteSession(id, sessions[id], all, keys, saved, old(records));
        if key.Err? {
          FewerSaved(saved, sessions, id);
          RefusedOne(codec, key.error, sessions, id);
          return Err(key.error), keys;
        }
        OneMoreSaved(saved, sessions, rest, id);
        keys := keys[id := key.value];
        saved := saved[id := sessions[id]];
        rest := rest - {id};
      }
      AllSaved(saved, sessions);
      r := Ok(());
    }

    method WriteSession(id: string, session: Session, ghost all: set<Bytes>, ghost keys: map<string, string>,
                        ghost saved: map<string, Session>, ghost before: map<string, Bytes>)
      returns (r: Result<string, SaveError>)
      requires NoCollision(codec, all) && records.Values <= all && codec.session(session) in all
      requires ReadsSession(codec, session) && Recorded(codec, before, records, keys, saved) && id !in keys
      modifies this`records, this`left
      ensures records.Values <= all
      ensures r.Ok? ==> left + 1 == old(left) && Recorded(codec, before, records, keys[id := r.value], saved[id := session])
      ensures r.Err? ==> records == old(records) && left == old(left)
      ensures r.Err? ==> Refused(codec, r.error, map[id := session]) || (r.error == Stopped && left == 0)
    {
      if !ValidId(id) || session.id != id { return Err(InvalidData); }
      var bytes := codec.session(session);
      if |bytes| > BYTE_LIMIT { return Err(FileTooLarge); }
      var ok := Spend();
      if !ok { return Err(Stopped); }
      OneMoreRecorded(codec, before, records, keys, saved, id, session);
      WriteValues(codec, records, bytes, all);
      records := WithRecord(codec, records, bytes);
      r := Ok(codec.digest(bytes));
    }

    method SaveDeliveries(outbox: seq<Delivery>, dead: seq<Delivery>, ghost all: set<Bytes>)
      returns (r: Result<(), SaveError>, names: DeliveryIndex)
      requires NoCollision(codec, all) && deliveryRecords.Values <= all
      requires Encodings(codec, outbox) <= all && Encodings(codec, dead) <= all
      modifies this`deliveryRecords, this`left
      ensures Extends(codec, old(deliveryRecords), deliveryRecords)
      ensures r.Ok? ==> Wrote(codec, deliveryRecords, names.outbox, outbox) && Wrote(codec, deliveryRecords, names.dead, dead)
      ensures r.Ok? ==> names == NamesOf(codec, outbox, dead)
      ensures r.Ok? ==> forall key :: key !in names.outbox && key !in names.dead ==> (key in deliveryRecords <==> key in old(deliveryRecords))
      ensures r.Ok? <==> old(left) >= |outbox| + |dead|
      ensures if r.Ok? then left == old(left) - |outbox| - |dead| else left == 0 && r.error == Stopped
    {
      names := NoDeliveries;
      var keys: seq<string>;
      r, keys := WriteAll(outbox, all);
      if r.Err? { return; }
      names := names.(outbox := keys);
      ghost var between := deliveryRecords;
      r, keys := WriteAll(dead, all);
      names := names.(dead := keys);
      ExtendsWrote(codec, between, deliveryRecords, names.outbox, outbox);
      if r.Ok? {
        WroteDigests(codec, deliveryRecords, names.outbox, outbox);
        WroteDigests(codec, deliveryRecords, names.dead, dead);
      }
    }

    method WriteAll(deliveries: seq<Delivery>, ghost all: set<Bytes>) returns (r: Result<(), SaveError>, keys: seq<string>)
      requires NoCollision(codec, all) && deliveryRecords.Values <= all && Encodings(codec, deliveries) <= all
      modifies this`deliveryRecords, this`left
      ensures Extends(codec, old(deliveryRecords), deliveryRecords)
      ensures deliveryRecords.Values <= all
      ensures r.Ok? ==> Wrote(codec, deliveryRecords, keys, deliveries)
      ensures r.Ok? ==> forall key :: key !in keys ==> (key in deliveryRecords <==> key in old(deliveryRecords))
      ensures r.Ok? <==> old(left) >= |deliveries|
      ensures if r.Ok? then left == old(left) - |deliveries| else left == 0 && r.error == Stopped
    {
      keys := [];
      for i := 0 to |deliveries|
        invariant Extends(codec, old(deliveryRecords), deliveryRecords)
        invariant deliveryRecords.Values <= all
        invariant Wrote(codec, deliveryRecords, keys, deliveries[..i]) && left + i == old(left)
        invariant forall key :: key !in keys ==> (key in deliveryRecords <==> key in old(deliveryRecords))
      {
        assert codec.delivery(deliveries[i]) in Encodings(codec, deliveries);
        var key := WriteDelivery(deliveries[i], keys, deliveries[..i], all);
        if key.None? { return Err(Stopped), keys; }
        keys := keys + [key.value];
        assert deliveries[..i] + [deliveries[i]] == deliveries[..i + 1];
      }
      assert deliveries[..|deliveries|] == deliveries;
      r := Ok(());
    }

    method WriteDelivery(d: Delivery, ghost keys: seq<string>, ghost done: seq<Delivery>, ghost all: set<Bytes>)
      returns (key: Option<string>)
      requires NoCollision(codec, all) && deliveryRecords.Values <= all && codec.delivery(d) in all
      requires Wrote(codec, deliveryRecords, keys, done)
      modifies this`deliveryRecords, this`left
      ensures Extends(codec, old(deliveryRecords), deliveryRecords)
      ensures deliveryRecords.Values <= all
      ensures key.Some? ==> Wrote(codec, deliveryRecords, keys + [key.value], done + [d])
      ensures key.Some? ==> left + 1 == old(left) && deliveryRecords.Keys == old(deliveryRecords).Keys + {key.value}
      ensures key.None? ==> left == old(left) == 0
    {
      var bytes := codec.delivery(d);
      var ok := Spend();
      if !ok { return None; }
      WriteKeeps(codec, deliveryRecords, bytes);
      WriteValues(codec, deliveryRecords, bytes, all);
      WroteOneMore(codec, deliveryRecords, keys, done, d);
      deliveryRecords := WithRecord(codec, deliveryRecords, bytes);
      key := Some(codec.digest(bytes));
    }

    /** Deletes what no index names. Errors are ignored, and one in the first cleanup does not keep the
        second from running. */
    method Cleanup(keys: map<string, string>, names: DeliveryIndex, faults: Faults)
      returns (r: Result<(), SaveError>, ghost complete: bool)
      modifies this`records, this`deliveryRecords, this`left
      ensures Deleted(old(records), records, old(StaleKeys(codec, records, keys)))
      ensures Deleted(old(deliveryRecords), deliveryRecords, old(UnnamedKeys(deliveryRecords, names)))
      ensures complete ==> records == old(records - StaleKeys(codec, records, keys))
      ensures complete ==> deliveryRecords == old(deliveryRecords - UnnamedKeys(deliveryRecords, names))
      ensures r.Ok? && faults == Faults(None, None) ==> complete
      ensures var deletions := |old(StaleKeys(codec, records, keys))| + |old(UnnamedKeys(deliveryRecords, names))|;
              && (r.Ok? <== old(left) >= deletions)
              && (complete ==> old(left) == left + deletions)
      ensures r.Err? ==> r.error == Stopped && left == 0
    {
      r := CleanupSessions(keys, faults.sessions);
      complete := r.Ok?;
      if r == Err(Stopped) { return; }
      r := CleanupDeliveries(names, faults.deliveries);
      complete := complete && r.Ok?;
      if r != Err(Stopped) { r := Ok(()); }
    }

    method CleanupSessions(keys: map<string, string>, fault: Option<nat>) returns (r: Result<(), SaveError>)
      modifies this`records, this`left
      ensures Deleted(old(records), records, old(StaleKeys(codec, records, keys)))
      ensures r.Ok? ==> records == old(records - StaleKeys(codec, records, keys))
      ensures CleanupBudget(r, fault, old(left), left, |old(StaleKeys(codec, records, keys))|)
    {
      ghost var before, stale := records, StaleKeys(codec, records, keys);
      var rest, deleted := records.Keys, 0;
      while rest != {}
        invariant Removing(before, records, stale, rest) && left + |before| == old(left) + |records|
      {
        var key :| key in rest;
        RemovingOn(before, records, stale, rest, key);
        rest := rest - {key};
        if !IsStale(codec, key, records[key], keys) { continue; }
        if fault == Some(deleted) { return Err(DeleteFailed); }
        var ok := Spend();
        if !ok { return Err(Stopped); }
        deleted := deleted + 1;
        records := records - {key};
      }
      Removed(before, records, stale);
      r := Ok(());
    }

    method CleanupDeliveries(names: DeliveryIndex, fault: Option<nat>) returns (r: Result<(), SaveError>)
      modifies this`deliveryRecords, this`left
      ensures Deleted(old(deliveryRecords), deliveryRecords, old(UnnamedKeys(deliveryRecords, names)))
      ensures r.Ok? ==> deliveryRecords == old(deliveryRecords - UnnamedKeys(deliveryRecords, names))
      ensures CleanupBudget(r, fault, old(left), left, |old(UnnamedKeys(deliveryRecords, names))|)
    {
      ghost var before, unnamed := deliveryRecords, UnnamedKeys(deliveryRecords, names);
      var rest, deleted := deliveryRecords.Keys, 0;
      while rest != {}
        invariant Removing(before, deliveryRecords, unnamed, rest) && left + |before| == old(left) + |deliveryRecords|
      {
        var key :| key in rest;
        RemovingOn(before, deliveryRecords, unnamed, rest, key);
        rest := rest - {key};
        if !IsUnnamed(key, names) { continue; }
        if fault == Some(deleted) { return Err(DeleteFailed); }
        var ok := Spend();
        if !ok { return Err(Stopped); }
        deleted := deleted + 1;
        deliveryRecords := deliveryRecords - {key};
      }
      Removed(before, deliveryRecords, unnamed);
      r := Ok(());
    }

    /** Deletes the records of a session that is in no catalog any more, stopping anywhere. */
    method RemoveSessionRecords(id: string, ghost content: Content) returns (r: Result<(), SaveError>)
      modifies this`records, this`left
      ensures id !in content.sessions && old(Holds(codec, Snapshot(), content)) ==> Holds(codec, Snapshot(), content)
      ensures Deleted(old(records), records, old(RecordsOf(codec, records, id)))
      ensures r.Ok? ==> records == old(records - RecordsOf(codec, records, id))
      ensures r.Ok? <==> old(left) >= |old(RecordsOf(codec, records, id))|
      ensures r.Ok? ==> forall key :: key in records && IsKey(key) && |records[key]| <= BYTE_LIMIT && codec.readSession(records[key]).Some? ==>
        codec.readSession(records[key]).value.id != id
    {
      r := RemoveRecords(id);
      OthersRemain(codec, old(Snapshot()), Snapshot(), id, content);
    }

    method RemoveRecords(id: string) returns (r: Result<(), SaveError>)
      modifies this`records, this`left
      ensures Deleted(old(records), records, old(RecordsOf(codec, records, id)))
      ensures r.Ok? ==> records == old(records - RecordsOf(codec, records, id))
      ensures r.Ok? <==> old(left) >= |old(RecordsOf(codec, records, id))|
    {
      ghost var before, all := records, RecordsOf(codec, records, id);
      var rest := records.Keys;
      while rest != {}
        invariant Removing(before, records, all, rest) && left + |before| == old(left) + |records|
      {
        var key :| key in rest;
        RemovingOn(before, records, all, rest, key);
        rest := rest - {key};
        if !IsRecordOf(codec, key, records[key], id) { continue; }
        var ok := Spend();
        if !ok { return Err(Stopped); }
        records := records - {key};
      }
      Removed(before, records, all);
      r := Ok(());
    }

    /** Accepts exactly what holds together, and reads back what it says. */
    method Load() returns (r: Result<Content, SaveError>)
      requires index.Some?
      ensures r.Ok? ==> Holds(codec, Snapshot(), r.value)
      ensures r.Err? ==> forall content :: !Holds(codec, Snapshot(), content)
    {
      var sessions: map<string, Session> := map[];
      var rest := index.value.Keys;
      while rest != {}
        invariant rest <= index.value.Keys && sessions.Keys == index.value.Keys - rest
        invariant forall id :: id in sessions ==> SessionAt(codec, records, id, index.value[id]) == Some(sessions[id])
      {
        var id :| id in rest;
        var session := SessionAt(codec, records, id, index.value[id]);
        if session.None? { return Err(InvalidData); }
        sessions := sessions[id := session.value];
        rest := rest - {id};
      }
      var names := if deliveryIndex.Some? then deliveryIndex.value else NoDeliveries;
      var outbox := LoadDeliveries(names.outbox);
      if outbox.Err? { return Err(InvalidData); }
      var dead := LoadDeliveries(names.dead);
      if dead.Err? { return Err(InvalidData); }
      r := Ok(Content(sessions, outbox.value, dead.value, if client.Some? then client.value else NoClient));
    }

    method LoadDeliveries(keys: seq<string>) returns (r: Result<seq<Delivery>, SaveError>)
      ensures r.Ok? ==> ListsDeliveries(codec, deliveryRecords, keys, r.value)
      ensures r.Err? ==> forall any :: !ListsDeliveries(codec, deliveryRecords, keys, any)
    {
      var deliveries: seq<Delivery> := [];
      for i := 0 to |keys|
        invariant ListsDeliveries(codec, deliveryRecords, keys[..i], deliveries)
      {
        var d := DeliveryAt(codec, deliveryRecords, keys[i]);
        if d.None? { return Err(InvalidData); }
        deliveries := deliveries + [d.value];
      }
      assert keys[..|keys|] == keys;
      r := Ok(deliveries);
    }
  }

  /** Records of a session that the catalog does not have are none of the catalog's. */
  lemma OthersRemain(codec: Codec, before: Disk, after: Disk, id: string, content: Content)
    requires after == before.(records := after.records)
    requires Deleted(before.records, after.records, RecordsOf(codec, before.records, id))
    ensures id !in content.sessions && Holds(codec, before, content) ==> Holds(codec, after, content)
  {
    if id !in content.sessions && Holds(codec, before, content) {
      var keys := before.index.value;
      forall other | other in keys ensures SessionAt(codec, after.records, other, keys[other]) == Some(content.sessions[other]) {
        assert SessionAt(codec, before.records, other, keys[other]).Some?;
        if keys[other] !in after.records { OtherSessionsRecord(codec, before.records, keys, content.sessions, keys[other], id); }
      }
    }
  }

  lemma FewerSaved(saved: map<string, Session>, sessions: map<string, Session>, id: string)
    requires saved.Keys <= sessions.Keys && id in sessions && id !in saved
    ensures |saved| < |sessions|
  {
    var left := sessions.Keys - saved.Keys;
    assert id in left && sessions.Keys == saved.Keys + left;
    assert |saved| == |saved.Keys| && |sessions| == |sessions.Keys|;
  }

  /** So far exactly these sessions are saved, and the rest is to come. */
  ghost predicate SavedBut(saved: map<string, Session>, sessions: map<string, Session>, rest: set<string>) {
    rest <= sessions.Keys && saved.Keys == sessions.Keys - rest && forall id :: id in saved ==> saved[id] == sessions[id]
  }

  lemma OneMoreSaved(saved: map<string, Session>, sessions: map<string, Session>, rest: set<string>, id: string)
    requires SavedBut(saved, sessions, rest) && id in rest
    ensures SavedBut(saved[id := sessions[id]], sessions, rest - {id}) && |saved[id := sessions[id]]| == |saved| + 1
  {
    assert saved[id := sessions[id]].Keys == saved.Keys + {id};
    assert |saved| == |saved.Keys|;
  }

  lemma AllSaved(saved: map<string, Session>, sessions: map<string, Session>)
    requires SavedBut(saved, sessions, {})
    ensures saved == sessions
  {}

  lemma RefusedOne(codec: Codec, error: SaveError, sessions: map<string, Session>, id: string)
    requires id in sessions
    ensures Refused(codec, error, map[id := sessions[id]]) ==> Refused(codec, error, sessions)
  {}

  lemma OneMoreRecorded(codec: Codec, before: map<string, Bytes>, records: map<string, Bytes>, keys: map<string, string>,
                        saved: map<string, Session>, id: string, session: Session)
    requires Recorded(codec, before, records, keys, saved) && id !in keys
    requires NoCollision(codec, records.Values + {codec.session(session)}) && ReadsSession(codec, session)
    requires ValidId(id) && session.id == id && |codec.session(session)| <= BYTE_LIMIT
    ensures var bytes := codec.session(session);
            Recorded(codec, before, WithRecord(codec, records, bytes), keys[id := codec.digest(bytes)], saved[id := session])
  {
    var bytes := codec.session(session);
    WriteLists(codec, records, keys, saved, id, session);
    OneMoreKeyed(codec, keys, saved, id, session);
    OnlyUnderMore(before, records, WithRecord(codec, records, bytes), keys, id, codec.digest(bytes));
    WriteKeeps(codec, records, bytes);
    ExtendsTwice(codec, before, records, WithRecord(codec, records, bytes));
  }

  lemma OneMoreKeyed(codec: Codec, keys: map<string, string>, saved: map<string, Session>, id: string, session: Session)
    requires Keyed(codec, keys, saved) && ValidId(id) && session.id == id && |codec.session(session)| <= BYTE_LIMIT
    ensures Keyed(codec, keys[id := codec.digest(codec.session(session))], saved[id := session])
  {}

  lemma OnlyUnderMore(before: map<string, Bytes>, records: map<string, Bytes>, after: map<string, Bytes>, keys: map<string, string>, id: string, key: string)
    requires OnlyUnder(before, records, keys.Values) && OnlyUnder(records, after, {key}) && id !in keys
    ensures OnlyUnder(before, after, keys[id := key].Values)
  {
    MoreValues(keys, id, key);
  }

  lemma ExtendsTwice(codec: Codec, before: map<string, Bytes>, records: map<string, Bytes>, after: map<string, Bytes>)
    requires Extends(codec, before, records) && Extends(codec, records, after)
    ensures Extends(codec, before, after)
  {}

  lemma KeysRecorded(codec: Codec, before: map<string, Bytes>, records: map<string, Bytes>, keys: map<string, string>, sessions: map<string, Session>)
    requires Recorded(codec, before, records, keys, sessions)
    ensures keys == KeysOf(codec, sessions) && StaleKeys(codec, records, keys) == StaleKeys(codec, before, keys)
  {}

  lemma MoreValues(keys: map<string, string>, id: string, key: string)
    requires id !in keys
    ensures keys[id := key].Values == keys.Values + {key}
  {
    var next := keys[id := key];
    assert next[id] == key;
    forall v | v in keys.Values ensures v in next.Values {
      var k :| k in keys && keys[k] == v;
      assert next[k] == v;
    }
  }

  lemma OtherSessionsRecord(codec: Codec, records: map<string, Bytes>, keys: map<string, string>, sessions: map<string, Session>, key: string, id: string)
    requires ListsSessions(codec, records, keys, sessions) && id !in sessions && key in records
    requires codec.readSession(records[key]).Some? && codec.readSession(records[key]).value.id == id
    ensures key !in keys.Values
  {
    forall other | other in keys ensures keys[other] != key {
      assert SessionAt(codec, records, other, keys[other]).Some?;
    }
  }

  lemma FitBoth(codec: Codec, a: seq<Delivery>, b: seq<Delivery>)
    ensures Fit(codec, a + b) <==> Fit(codec, a) && Fit(codec, b)
  {
    if Fit(codec, a + b) {
      assert forall i :: 0 <= i < |a| ==> a[i] == (a + b)[i];
      assert forall i :: 0 <= i < |b| ==> b[i] == (a + b)[|a| + i];
    }
  }

  // ---------- Catalogs that can be saved ----------

  function ExampleKey(c: char): string {
    seq(64, _ => c)
  }

  function ExampleSession(updated: nat): Session {
    NewSession("a", false, updated)
  }

  function ExampleDelivery(): Delivery {
    NewDelivery("d", Route("chat", "1", true, None), "text", Pending, 1)
  }

  /** Tells two sessions and one delivery apart; the delivery is as large as it is asked to be. */
  function ExampleCodec(size: nat): Codec {
    Codec(
      (s: Session) => if s == ExampleSession(1) then [1] else [2],
      (b: Bytes) => if b == [1] then Some(ExampleSession(1)) else if b == [2] then Some(ExampleSession(2)) else None,
      (d: Delivery) => [3] + seq(size, _ => 0),
      (b: Bytes) => if b != [] && b[0] == 3 then Some(ExampleDelivery()) else None,
      (b: Bytes) => ExampleKey(if b == [1] then 'a' else if b == [2] then 'b' else 'c'))
  }

  const ExampleDisk := Disk(map[ExampleKey('a') := [1]], Some(map["a" := ExampleKey('a')]), None, map[], None)
  const ExampleWas := Content(map["a" := ExampleSession(1)], [], [], NoClient)
  const ExampleContent := Content(map["a" := ExampleSession(2)], [ExampleDelivery()], [], NoClient)

  /** A save takes nothing impossible for granted: this catalog is on disk, and this content, of new
      sessions and a delivery of any size, can be saved over it. */
  lemma SavableExample(size: nat)
    ensures Savable(ExampleCodec(size), ExampleDisk, ExampleContent) && Holds(ExampleCodec(size), ExampleDisk, ExampleWas)
    ensures Fit(ExampleCodec(size), ExampleContent.outbox + ExampleContent.dead) <==> size < BYTE_LIMIT
  {
    var codec := ExampleCodec(size);
    ExampleReads(size);
    ExampleDigests(size);
    ExampleOccurring(size);
    ExampleFits(size);
    assert RecordAt(codec, ExampleDisk.records, ExampleKey('a')) == Some([1]) by { KeysDiffer(); }
    assert ListsSessions(codec, ExampleDisk.records, ExampleDisk.index.value, ExampleWas.sessions) by { KeysDiffer(); }
  }

  lemma ExampleFits(size: nat)
    ensures Fit(ExampleCodec(size), ExampleContent.outbox + ExampleContent.dead) <==> size < BYTE_LIMIT
  {
    var d := ExampleDelivery();
    assert |ExampleCodec(size).delivery(d)| == size + 1;
    assert ExampleContent.outbox + ExampleContent.dead == [d] && [d][0] == d;
  }

  lemma ExampleReads(size: nat)
    ensures RoundTrips(ExampleCodec(size), ExampleContent)
  {
    var bytes := ExampleCodec(size).delivery(ExampleDelivery());
    assert bytes == [3] + seq(size, _ => 0);
    assert bytes[0] == 3;
    assert ExampleSession(2) != ExampleSession(1);
  }

  lemma ExampleDigests(size: nat)
    ensures var codec := ExampleCodec(size); NoCollision(codec, {[1], [2], codec.delivery(ExampleDelivery())})
  {
    var codec := ExampleCodec(size);
    var bytes := codec.delivery(ExampleDelivery());
    assert bytes == [3] + seq(size, _ => 0);
    assert bytes[0] == 3;
    KeysDiffer();
    assert codec.digest([1]) == ExampleKey('a') && codec.digest([2]) == ExampleKey('b') && codec.digest(bytes) == ExampleKey('c');
  }

  lemma ExampleOccurring(size: nat)
    ensures var codec := ExampleCodec(size);
            Occurring(codec, ExampleDisk, ExampleContent) <= {[1], [2], codec.delivery(ExampleDelivery())}
  {
    var codec, d := ExampleCodec(size), ExampleDelivery();
    assert codec.session(ExampleSession(2)) == [2] by { assert ExampleSession(2) != ExampleSession(1); }
    assert Encodings(codec, [d]) == {codec.delivery(d)} by {
      assert [d][0] == d;
    }
    assert Encodings(codec, []) == {};
    assert forall k :: k in ExampleDisk.records ==> ExampleDisk.records[k] == [1];
  }

  lemma KeysDiffer()
    ensures forall c, d :: ExampleKey(c) == ExampleKey(d) ==> c == d
    ensures forall c :: IsHex(c) ==> IsKey(ExampleKey(c))
  {
    forall c, d | ExampleKey(c) == ExampleKey(d) ensures c == d {
      assert ExampleKey(c)[0] == c && ExampleKey(d)[0] == d;
    }
  }
}
