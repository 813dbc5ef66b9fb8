// The QRZ.com remote of backend/remotes/qrz.py: `sync_qsos` upserts the
// fetched records into the RemoteQSO table under the remote "qrz", commits
// once, and then, when asked to, pushes every local QSO. The HTTP calls
// (`fetch_qsos`, `push_qso`) are a client object that returns a fixed
// answer and records each call made to it.

module QrzSync {
  import opened Wrappers

  /** The remote name `sync_qsos` files its rows under. */
  const Qrz: string := "qrz"

  /** A point in time, however the remote encodes it. */
  type Stamp = int

  /** One record `fetch_qsos` returns; a missing key reads as `None`, as `data.get` does. */
  datatype RemoteData = RemoteData(
    id: int, callsign: Option<string>, frequency: Option<real>, mode: Option<string>, timestamp: Option<Stamp>)

  /** A RemoteQSO row: its identity (id, remote) and the four fields the sync writes. */
  datatype RemoteRow = RemoteRow(
    id: int, remote: string,
    callsign: Option<string>, frequency: Option<real>, mode: Option<string>, timestamp: Option<Stamp>)

  /** A row of the local QSO table of backend/models.py. */
  datatype LocalQso = LocalQso(
    id: int, callsign: Option<string>, frequency: Option<real>, mode: Option<string>, timestamp: Option<Stamp>)

  /** The JSON body `push_qso` sends. */
  datatype Payload = Payload(
    id: int, callsign: Option<string>, frequency: Option<real>, mode: Option<string>, timestamp: Option<Stamp>)

  /** A call made to QRZ.com. */
  datatype Call =
    | Fetch(username: string, password: string)
    | Push(username: string, password: string, body: Payload)

  datatype SyncError = TypeError

  type RowKey = (int, string)

  /** Every row is stored under its own identity. */
  predicate Keyed(rows: map<RowKey, RemoteRow>) {
    forall k :: k in rows ==> rows[k].id == k.0 && rows[k].remote == k.1
  }

  /** The row `sync_qsos` writes for a fetched record, whether it adds it or updates the one it found. */
  function RowOf(d: RemoteData): RemoteRow {
    RemoteRow(d.id, Qrz, d.callsign, d.frequency, d.mode, d.timestamp)
  }

  function KeyOf(d: RemoteData): RowKey {
    (d.id, Qrz)
  }

  /** The RemoteQSO table after upserting the records in order. */
  function UpsertAll(rows: map<RowKey, RemoteRow>, ds: seq<RemoteData>): map<RowKey, RemoteRow> {
    if ds == [] then rows
    else
      var d := ds[|ds| - 1];
      UpsertAll(rows, ds[..|ds| - 1])[KeyOf(d) := RowOf(d)]
  }

  /** The last fetched record with the given id. */
  function Latest(ds: seq<RemoteData>, id: int): (r: Option<RemoteData>)
    ensures r.Some? ==> r.value in ds && r.value.id == id
    ensures r.None? <==> forall d :: d in ds ==> d.id != id
  {
    if ds == [] then None
    else if ds[|ds| - 1].id == id then Some(ds[|ds| - 1])
    else Latest(ds[..|ds| - 1], id)
  }

  /**
   * What a sync leaves under each key: a "qrz" row for every fetched id, holding
   * the last record fetched with that id; every other row as it was, in
   * particular every row of another remote.
   */
  lemma {:induction false} UpsertAllAt(rows: map<RowKey, RemoteRow>, ds: seq<RemoteData>, k: RowKey)
    ensures var fetched := k.1 == Qrz && Latest(ds, k.0).Some?;
      && (k in UpsertAll(rows, ds) <==> k in rows || fetched)
      && (fetched ==> UpsertAll(rows, ds)[k] == RowOf(Latest(ds, k.0).value))
      && (!fetched && k in rows ==> UpsertAll(rows, ds)[k] == rows[k])
  {
    if ds != [] {
      UpsertAllAt(rows, ds[..|ds| - 1], k);
    }
  }

  /** Syncing the same records twice changes nothing the second time. */
  lemma UpsertIdempotent(rows: map<RowKey, RemoteRow>, ds: seq<RemoteData>)
    ensures UpsertAll(UpsertAll(rows, ds), ds) == UpsertAll(rows, ds)
  {
    var once := UpsertAll(rows, ds);
    forall k ensures (k in UpsertAll(once, ds) <==> k in once) && (k in once ==> UpsertAll(once, ds)[k] == once[k]) {
      UpsertAllAt(rows, ds, k);
      UpsertAllAt(once, ds, k);
    }
  }

  /** Two syncs that fetch the same id leave exactly one row, holding the values fetched last. */
  lemma SameIdTwice(a: RemoteData, b: RemoteData)
    requires a.id == b.id
    ensures UpsertAll(UpsertAll(map[], [a]), [b]) == map[(b.id, Qrz) := RowOf(b)]
  {
    assert [a][..0] == [] && [b][..0] == [];
  }

  function PayloadOf(q: LocalQso): Payload {
    Payload(q.id, q.callsign, q.frequency, q.mode, q.timestamp)
  }

  /** The push calls for the local QSOs, in order. */
  function Pushes(username: string, password: string, qsos: seq<LocalQso>): (calls: seq<Call>)
    ensures |calls| == |qsos|
  {
    if qsos == [] then []
    else Pushes(username, password, qsos[..|qsos| - 1]) + [Push(username, password, PayloadOf(qsos[|qsos| - 1]))]
  }

  /** One push per local QSO, carrying its id, callsign, frequency, mode and timestamp. */
  lemma {:induction false} PushesAt(username: string, password: string, qsos: seq<LocalQso>)
    ensures forall i :: 0 <= i < |qsos| ==>
      var c := Pushes(username, password, qsos)[i];
      c.Push? && c.username == username && c.password == password &&
      c.body == Payload(qsos[i].id, qsos[i].callsign, qsos[i].frequency, qsos[i].mode, qsos[i].timestamp)
  {
    if qsos != [] {
      PushesAt(username, password, qsos[..|qsos| - 1]);
    }
  }

  /** `fetch_qsos` and `push_qso`: the records QRZ.com answers with, and the calls made so far. */
  class QrzClient {
    const remoteQsos: seq<RemoteData>
    var calls: seq<Call>

    constructor(remoteQsos: seq<RemoteData>)
      ensures this.remoteQsos == remoteQsos && calls == []
    {
      this.remoteQsos := remoteQsos;
      calls := [];
    }

    method FetchQsos(username: string, password: string) returns (rs: seq<RemoteData>)
      modifies this
      ensures rs == remoteQsos && calls == old(calls) + [Fetch(username, password)]
    {
      rs := remoteQsos;
      calls := calls + [Fetch(username, password)];
    }

    method PushQso(username: string, password: string, body: Payload)
      modifies this
      ensures calls == old(calls) + [Push(username, password, body)]
    {
      calls := calls + [Push(username, password, body)];
    }
  }

  /** A database session over the RemoteQSO and QSO tables. */
  class Session {
    var remoteRows: map<RowKey, RemoteRow>
    var qsos: seq<LocalQso>
    var commits: nat

    predicate Valid()
      reads this
    {
      Keyed(remoteRows)
    }

    constructor(qsos: seq<LocalQso>)
      ensures Valid() && remoteRows == map[] && this.qsos == qsos && commits == 0
    {
      remoteRows, this.qsos, commits := map[], qsos, 0;
    }

    /**
     * `query(RemoteQSO).filter_by(id=id, remote=remote).first()`: a row with
     * exactly that id and remote, and none only when the table has no such row;
     * a row of another remote is never returned.
     */
    method Find(id: int, remote: string) returns (row: Option<RemoteRow>)
      requires Valid()
      ensures row.Some? ==> row.value.id == id && row.value.remote == remote && row.value in remoteRows.Values
      ensures row.None? <==> forall k :: k in remoteRows ==> remoteRows[k].id != id || remoteRows[k].remote != remote
      ensures row.Some? <==> (id, remote) in remoteRows
      ensures row.Some? ==> row.value == remoteRows[(id, remote)]
    {
      row := if (id, remote) in remoteRows then Some(remoteRows[(id, remote)]) else None;
    }

    /** Writing a row back under its own identity, for an added row or an updated one. */
    method Put(row: RemoteRow)
      modifies this
      ensures remoteRows == old(remoteRows)[(row.id, row.remote) := row]
      ensures qsos == old(qsos) && commits == old(commits)
    {
      remoteRows := remoteRows[(row.id, row.remote) := row];
    }

    method Commit()
      modifies this
      ensures commits == old(commits) + 1
      ensures remoteRows == old(remoteRows) && qsos == old(qsos)
    {
      commits := commits + 1;
    }
  }

  /**
   * `sync_qsos`: a TypeError, before any call, when the session is not a
   * Session; otherwise one fetch, the upsert of every fetched record, one
   * commit, and then a push per local QSO when `push` is set.
   */
  method SyncQsos(session: Session?, client: QrzClient, username: string, password: string, push: bool)
    returns (r: Result<(), SyncError>)
    requires session != null ==> session.Valid()
    modifies session, client
    ensures session != null ==> session.Valid()
    ensures session == null ==> r == Err(TypeError) && client.calls == old(client.calls)
    ensures session != null ==>
      && r == Ok(())
      && session.remoteRows == UpsertAll(old(session.remoteRows), client.remoteQsos)
      && session.qsos == old(session.qsos)
      && session.commits == old(session.commits) + 1
      && client.calls == old(client.calls) + [Fetch(username, password)] +
        (if push then Pushes(username, password, session.qsos) else [])
  {
    if session == null {
      return Err(TypeError);
    }
    var remote := client.FetchQsos(username, password);
    ghost var fetchedCalls := client.calls;
    for i := 0 to |remote|
      invariant session.remoteRows == UpsertAll(old(session.remoteRows), remote[..i])
      invariant session.qsos == old(session.qsos) && session.commits == old(session.commits)
      invariant session.Valid()
      invariant client.calls == fetchedCalls
    {
      var data := remote[i];
      assert remote[..i + 1][..i] == remote[..i];
      var found := session.Find(data.id, Qrz);
      if found.Some? {
        var qso := found.value.(callsign := data.callsign, frequency := data.frequency,
                                mode := data.mode, timestamp := data.timestamp);
        session.Put(qso);
      } else {
        session.Put(RowOf(data));
      }
    }
    assert remote[..|remote|] == remote;
    session.Commit();
    if push {
      var locals := session.qsos;
      for i := 0 to |locals|
        invariant client.calls == fetchedCalls + Pushes(username, password, locals[..i])
        invariant session.remoteRows == UpsertAll(old(session.remoteRows), remote)
        invariant session.qsos == locals && session.commits == old(session.commits) + 1
        invariant session.Valid()
      {
        assert locals[..i + 1][..i] == locals[..i];
        client.PushQso(username, password, PayloadOf(locals[i]));
      }
      assert locals[..|locals|] == locals;
    }
    return Ok(());
  }
}
