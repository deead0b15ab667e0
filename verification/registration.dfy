/** The local-storage registration path: build a registration record from
    the student's form data and append it to the list kept under a fixed
    storage key. Storage is modelled as the already-parsed value of each
    key; the generated id and the timestamp are inputs. */
module LocalRegistration {

  /** A plain JavaScript object with string-valued fields. */
  type Record = map<string, string>

  /** Local storage, each key holding the parsed list stored under it. */
  type Storage = map<string, seq<Record>>

  const StorageKey: string := "clubRegistrations"
  const IdField: string := "id"
  const ClubIdField: string := "clubId"
  const TimestampField: string := "timestamp"

  /** `{ id, ...studentData, clubId, timestamp }`: later fields win, so a
      student-supplied `id` replaces the generated one, while `clubId` and
      `timestamp` always come from the arguments. Every other student field
      is kept as given. */
  function NewRegistration(generatedId: string, studentData: Record, clubId: string, timestamp: string): (r: Record)
    ensures r.Keys == studentData.Keys + {IdField, ClubIdField, TimestampField}
    ensures r[ClubIdField] == clubId && r[TimestampField] == timestamp
    ensures r[IdField] == if IdField in studentData then studentData[IdField] else generatedId
    ensures forall k :: k in studentData && k != ClubIdField && k != TimestampField ==> r[k] == studentData[k]
  {
    map[IdField := generatedId] + studentData + map[ClubIdField := clubId, TimestampField := timestamp]
  }

  /** `JSON.parse(localStorage.getItem(key) || '[]')`: the stored list, or
      the empty list when nothing has been stored yet. */
  function StoredRegistrations(store: Storage): seq<Record> {
    if StorageKey in store then store[StorageKey] else []
  }

  /** Reading back what was just written: the list written under the
      storage key is the list read from it, and writing any other key leaves
      the stored registrations as they were. */
  lemma ReadBack(store: Storage, l: seq<Record>, k: string, v: seq<Record>)
    ensures StoredRegistrations(store[StorageKey := l]) == l
    ensures k != StorageKey ==> StoredRegistrations(store[k := v]) == StoredRegistrations(store)
  {
  }

  /** What `registerWithLocalStorage` resolves to, and the storage after. */
  datatype Registered = Registered(registration: Record, storage: Storage)

  /** Read the stored list, push the new record, write the list back. The
      list grows by exactly this record at its end (so by one, with the
      earlier records unchanged), the record names `clubId`, and no other key is touched. */
  function RegisterWithLocalStorage(store: Storage, studentData: Record, clubId: string,
                                    generatedId: string, timestamp: string): (o: Registered)
    ensures o.registration == NewRegistration(generatedId, studentData, clubId, timestamp)
    ensures StoredRegistrations(o.storage) == StoredRegistrations(store) + [o.registration]
    ensures ClubIdField in o.registration && o.registration[ClubIdField] == clubId
    ensures TimestampField in o.registration && o.registration[TimestampField] == timestamp
    ensures o.storage.Keys == store.Keys + {StorageKey}
    ensures forall k :: k in store && k != StorageKey ==> o.storage[k] == store[k]
  {
    var registration := NewRegistration(generatedId, studentData, clubId, timestamp);
    var existing := StoredRegistrations(store);
    Registered(registration, store[StorageKey := existing + [registration]])
  }

  /** One form submission's inputs on the local-storage path. */
  datatype Submission = Submission(studentData: Record, clubId: string, generatedId: string, timestamp: string)

  /** The record one submission produces. */
  function RecordOf(sub: Submission): Record {
    NewRegistration(sub.generatedId, sub.studentData, sub.clubId, sub.timestamp)
  }

  /** Handle one submission on the local-storage path: its record is
      appended to the stored list. */
  function Register(store: Storage, sub: Submission): (o: Registered)
    ensures o.registration == RecordOf(sub)
    ensures StoredRegistrations(o.storage) == StoredRegistrations(store) + [RecordOf(sub)]
  {
    RegisterWithLocalStorage(store, sub.studentData, sub.clubId, sub.generatedId, sub.timestamp)
  }

  /** The records the submissions produce, in submission order. */
  function RecordsOf(subs: seq<Submission>): seq<Record> {
    if |subs| == 0 then [] else [RecordOf(subs[0])] + RecordsOf(subs[1..])
  }

  /** The storage after registering `subs` one after another. */
  function RegisterAll(store: Storage, subs: seq<Submission>): Storage
    decreases |subs|
  {
    if |subs| == 0 then store
    else RegisterAll(Register(store, subs[0]).storage, subs[1..])
  }

  /** Submissions handled one at a time are all kept, in submission order,
      after the records already stored. */
  lemma {:induction false} RegisterAllAppends(store: Storage, subs: seq<Submission>)
    ensures StoredRegistrations(RegisterAll(store, subs)) == StoredRegistrations(store) + RecordsOf(subs)
    decreases |subs|
  {
    if |subs| > 0 {
      var next := Register(store, subs[0]).storage;
      RegisterAllAppends(next, subs[1..]);
      AppendAssoc(StoredRegistrations(store), RecordOf(subs[0]), RecordsOf(subs[1..]));
    }
  }

  /** Appending one record and then the later ones is appending them all
      at once. */
  lemma AppendAssoc(before: seq<Record>, first: Record, later: seq<Record>)
    ensures (before + [first]) + later == before + ([first] + later)
  {
  }
}
