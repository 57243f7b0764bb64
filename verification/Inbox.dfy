/** The webhook receiver: signature and shape checks, and a durable inbox that keeps each
    delivery once over retries, database errors and crashes. Ed25519, JSON and SHA-256 are
    functions of the receiver's environment. */
module WebhookInbox {
  import opened Octets
  import opened Records
  import Texts

  const LIMIT := 16 * 1024

  datatype Event = Event(id: string, sequence: int, occurredAt: int, kind: string, resourceKind: string,
                         resourceId: Option<string>)

  datatype Notice = Notice(version: int, mesh: string, webhook: string, delivery: string, attempt: int, sentAt: int,
                           event: Event)

  /** `parse` is `json.loads` with the checks for duplicate, missing and extra fields and for
      the JSON types; `render` is the stored text of mesh, webhook and event. */
  datatype Receiver = Receiver(
    mesh: string,
    webhook: string,
    signed: (string, Bytes) -> bool,
    parse: Bytes -> Option<Notice>,
    render: (string, string, Event) -> string,
    hash: string -> Digest)

  // ---------- verify ----------

  /** A canonical UUID of version 4 and the RFC 4122 variant. */
  predicate Uuid4(s: string) {
    && |s| == 36
    && s[8] == s[13] == s[18] == s[23] == '-'
    && (forall i :: 0 <= i < 36 && i != 8 && i != 13 && i != 18 && i != 23 ==> Texts.IsHex(s[i]))
    && s[14] == '4' && (s[19] == '8' || s[19] == '9' || s[19] == 'a' || s[19] == 'b')
  }

  predicate Letter(c: char) {
    'a' <= c <= 'z' || 'A' <= c <= 'Z' || '0' <= c <= '9'
  }

  predicate EventName(s: string) {
    1 <= |s| <= 128 && forall i :: 0 <= i < |s| ==> Letter(s[i]) || s[i] == '.' || s[i] == '_' || s[i] == '-'
  }

  /** `ed25519=` and 86 characters of URL-safe base64. */
  predicate SignatureText(s: string) {
    && |s| == 94 && s[..8] == "ed25519="
    && forall i :: 8 <= i < 94 ==> Letter(s[i]) || s[i] == '-' || s[i] == '_'
  }

  predicate EventOk(e: Event, sentAt: int) {
    && Uuid4(e.id) && (e.resourceId.Some? ==> Uuid4(e.resourceId.value))
    && e.sequence >= 1 && 0 <= e.occurredAt <= sentAt
    && EventName(e.kind) && EventName(e.resourceKind)
  }

  predicate NoticeOk(r: Receiver, n: Notice, now: int) {
    && n.version == 1 && n.mesh == r.mesh && n.webhook == r.webhook
    && -300 <= now - n.sentAt <= 300 && 1 <= n.attempt <= 10
    && Uuid4(n.delivery) && EventOk(n.event, n.sentAt)
  }

  /** `verify`; a refusal is an exception answered with 400. */
  function Verify(r: Receiver, body: Bytes, signature: string, now: int): Option<Notice> {
    if !(1 <= |body| <= LIMIT) || !SignatureText(signature) || !r.signed(signature[8..], body) then None
    else
      match r.parse(body)
      case None => None
      case Some(n) => if NoticeOk(r, n, now) then Some(n) else None
  }

  // ---------- The inbox ----------

  datatype Row = Row(digest: Digest, text: string, receivedAt: int, processed: bool)

  type Rows = map<string, Row>

  /** What is stored of a notice: neither attempt nor send time. */
  function EventText(r: Receiver, n: Notice): string {
    r.render(n.mesh, n.webhook, n.event)
  }

  function EventDigest(r: Receiver, n: Notice): Digest {
    r.hash(EventText(r, n))
  }

  /** The delivery is known with another event. */
  predicate Reused(r: Receiver, rows: Rows, n: Notice) {
    n.delivery in rows && rows[n.delivery].digest != EventDigest(r, n)
  }

  /** `INSERT OR IGNORE`. */
  function Inserted(r: Receiver, rows: Rows, n: Notice, now: int): Rows {
    if n.delivery in rows then rows else rows[n.delivery := Row(EventDigest(r, n), EventText(r, n), now, false)]
  }

  /** What may go wrong in the transaction: a database error or the end of the process, before
      the lookup of the delivery (a locked database fails at BEGIN) or after the commit or
      rollback took effect. */
  datatype Fault = Healthy | ErrorBefore | ErrorAfter | CrashBefore | CrashAfter

  predicate Commits(f: Fault) {
    f.Healthy? || f.ErrorAfter? || f.CrashAfter?
  }

  /** What `accept` comes to: it returns, raises ValueError or sqlite3.Error, or never ends. */
  datatype Ending = Returned | IdentityReused | DatabaseError | Died

  function EndingOf(reused: bool, f: Fault): Ending {
    if f.CrashBefore? || f.CrashAfter? then Died
    else if f.ErrorBefore? || f.ErrorAfter? then DatabaseError
    else if reused then IdentityReused
    else Returned
  }

  datatype Request = Request(path: string, lengths: seq<Option<int>>, signatures: seq<string>, chunked: bool,
                             available: Bytes)

  /** The notice a request carries, if `do_POST` gets as far as `accept`. */
  function Carried(r: Receiver, q: Request, now: int): Option<Notice> {
    if q.path != "/peerward" || |q.lengths| != 1 || |q.signatures| != 1 || q.chunked then None
    else if q.lengths[0].None? || !(1 <= q.lengths[0].value <= LIMIT) || |q.available| < q.lengths[0].value then None
    else Verify(r, q.available[..q.lengths[0].value], q.signatures[0], now)
  }

  /** What one step leaves: the rows, and the status unless the process died. */
  datatype Answer = Answer(rows: Rows, status: Option<int>)

  function Posted(r: Receiver, rows: Rows, q: Request, now: int, f: Fault): Answer {
    var n := Carried(r, q, now);
    if n.None? then Answer(rows, if f.CrashBefore? || f.CrashAfter? then None else Some(400))
    else
      var reused := Reused(r, rows, n.value);
      Answer(if !reused && Commits(f) then Inserted(r, rows, n.value, now) else rows,
             match EndingOf(reused, f)
             case Returned => Some(204)
             case IdentityReused => Some(400)
             case DatabaseError => Some(503)
             case Died => None)
  }

  class Inbox {
    var rows: Rows

    constructor ()
      ensures rows == map[]
    {
      rows := map[];
    }

    /** `accept`: commits the event once, refuses a reused delivery, or fails as `f` says. A
        normal return means the delivery is committed with this event's digest. */
    method Accept(r: Receiver, n: Notice, now: int, f: Fault) returns (o: Ending)
      modifies this
      ensures o == EndingOf(Reused(r, old(rows), n), f)
      ensures rows == if !Reused(r, old(rows), n) && Commits(f) then Inserted(r, old(rows), n, now) else old(rows)
      ensures forall d :: d in old(rows) ==> d in rows && rows[d] == old(rows)[d]
      ensures o.Returned? ==> n.delivery in rows && rows[n.delivery].digest == EventDigest(r, n)
    {
      var text := r.render(n.mesh, n.webhook, n.event);
      var digest := r.hash(text);
      if f.ErrorBefore? { return DatabaseError; }
      if f.CrashBefore? { return Died; }
      var reused := n.delivery in rows && rows[n.delivery].digest != digest;
      if !reused && n.delivery !in rows {
        rows := rows[n.delivery := Row(digest, text, now, false)];
      }
      if f.CrashAfter? { return Died; }
      if f.ErrorAfter? { return DatabaseError; }
      return if reused then IdentityReused else Returned;
    }

    /** `do_POST`. */
    method DoPost(r: Receiver, q: Request, now: int, f: Fault) returns (status: Option<int>)
      modifies this
      ensures Answer(rows, status) == Posted(r, old(rows), q, now, f)
    {
      var n := Carried(r, q, now);
      if n.None? { return if f.CrashBefore? || f.CrashAfter? then None else Some(400); }
      var o := Accept(r, n.value, now, f);
      match o {
        case Returned => return Some(204);
        case IdentityReused => return Some(400);
        case DatabaseError => return Some(503);
        case Died => return None;
      }
    }
  }

  // ---------- Runs ----------

  /** A request, or the local consumer marking a row. */
  datatype Move = Post(request: Request, now: int, fault: Fault) | Process(delivery: string)

  function Next(r: Receiver, rows: Rows, m: Move): Answer {
    match m
    case Post(q, now, f) => Posted(r, rows, q, now, f)
    case Process(d) => Answer(if d in rows then rows[d := rows[d].(processed := true)] else rows, None)
  }

  /** The rows after `k` moves from the empty inbox. */
  function RowsAfter(r: Receiver, moves: seq<Move>, k: nat): Rows
    requires k <= |moves|
  {
    if k == 0 then map[] else Next(r, RowsAfter(r, moves, k - 1), moves[k - 1]).rows
  }

  /** The notice of move `k` was answered with 204. */
  predicate Acknowledged(r: Receiver, moves: seq<Move>, k: nat, n: Notice)
    requires k < |moves|
  {
    && moves[k].Post? && Carried(r, moves[k].request, moves[k].now) == Some(n)
    && Next(r, RowsAfter(r, moves, k), moves[k]).status == Some(204)
  }

  /** Everything but the consumer's mark. */
  predicate SameRow(a: Row, b: Row) {
    b == a.(processed := b.processed) && (a.processed ==> b.processed)
  }

  /** Once committed, a row stays with the same event for ever. */
  lemma {:induction false} RowsAreStable(r: Receiver, moves: seq<Move>, i: nat, j: nat, d: string)
    requires i <= j <= |moves| && d in RowsAfter(r, moves, i)
    ensures d in RowsAfter(r, moves, j) && SameRow(RowsAfter(r, moves, i)[d], RowsAfter(r, moves, j)[d])
    decreases j
  {
    if i < j { RowsAreStable(r, moves, i, j - 1, d); }
  }

  /** The event a row holds is the event of some verified notice for that delivery. */
  ghost predicate From(r: Receiver, moves: seq<Move>, i: nat, d: string, row: Row)
    requires i < |moves|
  {
    && moves[i].Post? && Carried(r, moves[i].request, moves[i].now).Some?
    && var n := Carried(r, moves[i].request, moves[i].now).value;
    && n.delivery == d && row.text == EventText(r, n) && row.digest == r.hash(row.text)
    && row.receivedAt == moves[i].now
  }

  /** No row appears out of nowhere, and its digest is that of its text. */
  lemma {:induction false} RowsHaveSources(r: Receiver, moves: seq<Move>, k: nat, d: string)
    requires k <= |moves| && d in RowsAfter(r, moves, k)
    ensures exists i :: 0 <= i < k && From(r, moves, i, d, RowsAfter(r, moves, k)[d])
    decreases k
  {
    if k > 0 {
      var before, row := RowsAfter(r, moves, k - 1), RowsAfter(r, moves, k)[d];
      if d in before {
        RowsHaveSources(r, moves, k - 1, d);
        var i :| 0 <= i < k - 1 && From(r, moves, i, d, before[d]);
        assert From(r, moves, i, d, row);
      } else {
        assert From(r, moves, k - 1, d, row);
      }
    }
  }

  /** A 204 means a committed row for that delivery with that event's digest, from then on. */
  lemma {:induction false} AcknowledgedIsStored(r: Receiver, moves: seq<Move>, i: nat, j: nat, n: Notice)
    requires i < j <= |moves| && Acknowledged(r, moves, i, n)
    ensures n.delivery in RowsAfter(r, moves, j)
    ensures RowsAfter(r, moves, j)[n.delivery].digest == EventDigest(r, n)
  {
    assert n.delivery in RowsAfter(r, moves, i + 1);
    RowsAreStable(r, moves, i + 1, j, n.delivery);
  }

  /** All acknowledged notices of one delivery carry the same event, unless hashes collide. */
  lemma {:induction false} OneEventPerDelivery(r: Receiver, moves: seq<Move>, i: nat, j: nat, n: Notice, m: Notice)
    requires i < |moves| && j < |moves| && Acknowledged(r, moves, i, n) && Acknowledged(r, moves, j, m)
    requires n.delivery == m.delivery
    requires forall a, b :: r.hash(a) == r.hash(b) ==> a == b
    requires forall e, e' :: r.render(r.mesh, r.webhook, e) == r.render(r.mesh, r.webhook, e') ==> e == e'
    ensures n.event == m.event
  {
    AcknowledgedIsStored(r, moves, i, |moves|, n);
    AcknowledgedIsStored(r, moves, j, |moves|, m);
    assert NoticeOk(r, n, moves[i].now) && NoticeOk(r, m, moves[j].now);
  }

  /** A retry of a stored notice under another attempt and send time is acknowledged when
      nothing fails and changes nothing; the same delivery with another event digest changes
      nothing, is never acknowledged, and is refused when nothing fails. */
  lemma {:induction false} RetriesChangeNothing(r: Receiver, moves: seq<Move>, i: nat, j: nat, n: Notice,
                                                q: Request, now: int, f: Fault)
    requires i < j <= |moves| && Acknowledged(r, moves, i, n)
    requires Carried(r, q, now).Some? && Carried(r, q, now).value.delivery == n.delivery
    ensures var rows := RowsAfter(r, moves, j);
            Posted(r, rows, q, now, f).rows == rows
    ensures var m := Carried(r, q, now).value;
            var status := Posted(r, RowsAfter(r, moves, j), q, now, f).status;
            && (m == n.(attempt := m.attempt, sentAt := m.sentAt) && f.Healthy? ==> status == Some(204))
            && (EventDigest(r, m) != EventDigest(r, n) ==> status != Some(204) && (f.Healthy? ==> status == Some(400)))
  {
    AcknowledgedIsStored(r, moves, i, j, n);
  }
}
