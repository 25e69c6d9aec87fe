/** The admin panel of src/handlers/admin.py: the admin filter, the mailing
    conversation (`WAITING_TEXT`, then `WAITING_CONFIRM`), the broadcast loop
    of `execute_mailing` with its counters and progress updates, and
    `send_message_with_retry`. What the messenger answers to each send is an
    input: one `Outcome` per attempt. */
module Admin {
  import opened PyText

  // ------------------------------------------------------------ the filter

  /** `IsAdminFilter.__call__`: both of its branches test the same thing, so
      the text of the message makes no difference. */
  function IsAdminFilter(fromId: int, admins: set<int>, text: Option<string>): (allowed: bool)
    ensures allowed <==> fromId in admins
  {
    if text.Some? && text.value != "" && StartsWith(text.value, "/admin") then fromId in admins
    else fromId in admins
  }

  // ------------------------------------------------------------ send outcomes

  /** What one `bot.send_message` call does: returns, or raises
      `TelegramForbiddenError`, `TelegramRetryAfter` or another exception. */
  datatype Outcome = Success | Forbidden | RetryAfter(seconds: nat) | OtherError

  /** `send_message_with_retry` over the outcomes of its successive attempts:
      it retries after every `RetryAfter` and reports whether the first other
      outcome was a success. The source recurses for as long as the
      messenger asks it to wait; the requirement says the given outcomes
      reach an answer that is not a request to wait. */
  function SendWithRetry(outcomes: seq<Outcome>): (ok: bool)
    requires |outcomes| > 0 && !outcomes[|outcomes| - 1].RetryAfter?
    ensures ok <==> exists k :: && 0 <= k < |outcomes| && outcomes[k] == Success
                                && forall j :: 0 <= j < k ==> outcomes[j].RetryAfter?
    decreases |outcomes|
  {
    if outcomes[0].RetryAfter? then
      var ok := SendWithRetry(outcomes[1..]);
      assert forall j :: 0 <= j < |outcomes| - 1 ==> outcomes[1..][j] == outcomes[j + 1];
      if ok then
        var k :| && 0 <= k < |outcomes| - 1 && outcomes[1..][k] == Success
                 && forall j :: 0 <= j < k ==> outcomes[1..][j].RetryAfter?;
        assert outcomes[k + 1] == Success;
        ok
      else
        ok
    else
      assert outcomes[0].Success? ==> outcomes[0] == Success;
      outcomes[0].Success?
  }

  /** How many sends `send_message_with_retry` makes: every `RetryAfter` and
      the first other outcome. */
  function RetryAttempts(outcomes: seq<Outcome>): (n: nat)
    requires |outcomes| > 0 && !outcomes[|outcomes| - 1].RetryAfter?
    ensures 1 <= n <= |outcomes|
    ensures !outcomes[n - 1].RetryAfter?
    ensures forall j :: 0 <= j < n - 1 ==> outcomes[j].RetryAfter?
    decreases |outcomes|
  {
    if outcomes[0].RetryAfter? then
      var n := RetryAttempts(outcomes[1..]);
      assert forall j :: 0 <= j < n - 1 ==> outcomes[1..][j] == outcomes[j + 1];
      n + 1
    else
      1
  }

  /** Forbidden and other errors end the retries with False, whatever
      follows them. */
  lemma RetryStopsAtError(outcomes: seq<Outcome>)
    requires |outcomes| > 0 && !outcomes[|outcomes| - 1].RetryAfter?
    requires outcomes[0] == Forbidden || outcomes[0] == OtherError
    ensures !SendWithRetry(outcomes) && RetryAttempts(outcomes) == 1
  {
  }

  // ------------------------------------------------------------ the broadcast

  /** The outcomes for one recipient: the first send, and the second one,
      which is made only when the first asked to wait. */
  datatype Delivery = Delivery(first: Outcome, retry: Outcome)

  /** Whether the recipient is counted in `success`. */
  predicate Delivered(d: Delivery) {
    d.first.Success? || (d.first.RetryAfter? && d.retry.Success?)
  }

  /** The sends made for one recipient. */
  function Attempts(d: Delivery): nat {
    if d.first.RetryAfter? then 2 else 1
  }

  /** The loop agrees with `send_message_with_retry` whenever the second
      attempt (if any) is not asked to wait again. */
  lemma DeliveredAgreesWithRetry(d: Delivery)
    ensures !d.first.RetryAfter? ==> Delivered(d) == SendWithRetry([d.first])
    ensures d.first.RetryAfter? && !d.retry.RetryAfter? ==>
              Delivered(d) == SendWithRetry([d.first, d.retry]) && Attempts(d) == RetryAttempts([d.first, d.retry])
  {
    if d.first.RetryAfter? && !d.retry.RetryAfter? {
      assert [d.first, d.retry][1..] == [d.retry];
    }
  }

  /** `[uid for uid in user_ids if uid != admin_id]`. */
  function Recipients(ids: seq<int>, admin: int): (r: seq<int>)
    ensures admin !in r
    ensures |r| <= |ids|
  {
    if ids == [] then []
    else Recipients(ids[..|ids| - 1], admin) + (if ids[|ids| - 1] == admin then [] else [ids[|ids| - 1]])
  }

  /** The recipients are the stored ids other than the admin's, each as
      often as it is stored, in their stored order. */
  lemma {:induction false} RecipientsKeepOthers(ids: seq<int>, admin: int)
    ensures forall x :: x != admin ==> multiset(Recipients(ids, admin))[x] == multiset(ids)[x]
    ensures forall x :: x in Recipients(ids, admin) <==> x in ids && x != admin
  {
    if ids != [] {
      var init := ids[..|ids| - 1];
      RecipientsKeepOthers(init, admin);
      assert ids == init + [ids[|ids| - 1]];
    }
  }

  lemma {:induction false} RecipientsAppend(a: seq<int>, b: seq<int>, admin: int)
    ensures Recipients(a + b, admin) == Recipients(a, admin) + Recipients(b, admin)
    decreases |b|
  {
    if b == [] {
      assert a + b == a;
    } else {
      var init, last := b[..|b| - 1], b[|b| - 1];
      var tail := if last == admin then [] else [last];
      RecipientsAppend(a, init, admin);
      assert (a + b)[..|a + b| - 1] == a + init;
      assert (a + b)[|a + b| - 1] == last;
      assert Recipients(a + b, admin) == Recipients(a + init, admin) + tail;
      assert Recipients(b, admin) == Recipients(init, admin) + tail;
    }
  }

  /** `success` after the given recipients. */
  function CountDelivered(ds: seq<Delivery>): (n: nat)
    ensures n <= |ds|
  {
    if ds == [] then 0
    else CountDelivered(ds[..|ds| - 1]) + (if Delivered(ds[|ds| - 1]) then 1 else 0)
  }

  /** The recipients counted as delivered, as a set of positions. */
  function DeliveredPositions(ds: seq<Delivery>): set<int> {
    set k | 0 <= k < |ds| && Delivered(ds[k])
  }

  /** `success` counts each delivered recipient once and nothing else, so
      `failed` counts exactly the others. */
  lemma {:induction false} CountDeliveredIsCardinality(ds: seq<Delivery>)
    ensures CountDelivered(ds) == |DeliveredPositions(ds)|
    ensures CountDelivered(ds) <= |ds|
  {
    if ds != [] {
      var init := ds[..|ds| - 1];
      CountDeliveredIsCardinality(init);
      var last := |ds| - 1;
      var before := DeliveredPositions(init);
      assert forall k :: 0 <= k < last ==> ds[k] == init[k];
      if Delivered(ds[last]) {
        assert DeliveredPositions(ds) == before + {last};
      } else {
        assert DeliveredPositions(ds) == before;
      }
    }
  }

  /** Number of recipients whose first send was asked to wait. */
  function CountRetries(ds: seq<Delivery>): (n: nat)
    ensures n <= |ds|
  {
    if ds == [] then 0
    else CountRetries(ds[..|ds| - 1]) + (if ds[|ds| - 1].first.RetryAfter? then 1 else 0)
  }

  /** The sends made for one recipient: one, and a second one to the same
      chat when the first was asked to wait. */
  function SendsTo(x: int, d: Delivery): (log: seq<int>)
    ensures |log| == Attempts(d) && forall k :: 0 <= k < |log| ==> log[k] == x
  {
    if d.first.RetryAfter? then [x, x] else [x]
  }

  /** The chat id of every send the loop makes, in order. Every recipient
      gets one send, plus one more when the first was asked to wait. */
  function SendLog(recipients: seq<int>, ds: seq<Delivery>): (log: seq<int>)
    requires |ds| == |recipients|
    ensures |log| == |ds| + CountRetries(ds)
  {
    if ds == [] then []
    else
      var n := |ds| - 1;
      SendLog(recipients[..n], ds[..n]) + SendsTo(recipients[n], ds[n])
  }

  /** Every send goes to a recipient. */
  lemma {:induction false} SendLogToRecipients(recipients: seq<int>, ds: seq<Delivery>)
    requires |ds| == |recipients|
    ensures forall x :: x in SendLog(recipients, ds) ==> x in recipients
  {
    if ds != [] {
      var n := |ds| - 1;
      SendLogToRecipients(recipients[..n], ds[..n]);
      forall x | x in SendLog(recipients, ds) ensures x in recipients {
        if x in SendLog(recipients[..n], ds[..n]) {
          assert x in recipients[..n];
        } else {
          assert x in SendsTo(recipients[n], ds[n]);
        }
      }
    }
  }

  /** The sends for one recipient are exactly that recipient's. */
  lemma SendLogSingle(x: int, d: Delivery)
    ensures SendLog([x], [d]) == SendsTo(x, d)
  {
    assert [x][..0] == [] && [d][..0] == [];
  }

  /** The sends for consecutive groups of recipients follow each other, so
      each recipient's sends come in its own place, in order. */
  lemma {:induction false} SendLogAppend(r1: seq<int>, d1: seq<Delivery>, r2: seq<int>, d2: seq<Delivery>)
    requires |d1| == |r1| && |d2| == |r2|
    ensures SendLog(r1 + r2, d1 + d2) == SendLog(r1, d1) + SendLog(r2, d2)
    decreases |d2|
  {
    if d2 == [] {
      assert r1 + r2 == r1 && d1 + d2 == d1;
    } else {
      var n := |d2| - 1;
      var r, d := r1 + r2, d1 + d2;
      var last := SendsTo(r2[n], d2[n]);
      DropLastOfAppend(r1, r2);
      DropLastOfAppend(d1, d2);
      var m := |d| - 1;
      assert r[..m] == r1 + r2[..n] && d[..m] == d1 + d2[..n];
      assert SendsTo(r[m], d[m]) == last;
      calc {
        SendLog(r, d);
        SendLog(r[..m], d[..m]) + SendsTo(r[m], d[m]);
        SendLog(r1 + r2[..n], d1 + d2[..n]) + last;
        { SendLogAppend(r1, d1, r2[..n], d2[..n]); }
        (SendLog(r1, d1) + SendLog(r2[..n], d2[..n])) + last;
        SendLog(r1, d1) + (SendLog(r2[..n], d2[..n]) + last);
        SendLog(r1, d1) + SendLog(r2, d2);
      }
    }
  }

  lemma DropLastOfAppend<T>(a: seq<T>, b: seq<T>)
    requires b != []
    ensures (a + b)[..|a + b| - 1] == a + b[..|b| - 1]
    ensures (a + b)[|a + b| - 1] == b[|b| - 1]
  {
  }

  // ------------------------------------------------------------ progress

  const BatchSize := 50
  const BarCells := 10

  /** When the progress message is edited after the `i`-th recipient. */
  predicate IsCheckpoint(i: nat, total: nat) {
    i % BatchSize == 0 || i == total
  }

  /** `int(progress // 10)` with `progress = min(i / total * 100, 100)`, in
      exact arithmetic. */
  function Filled(i: nat, total: nat): (cells: nat)
    requires 1 <= i <= total
    ensures cells <= BarCells
    ensures i == total ==> cells == BarCells
  {
    (BarCells * i) / total
  }

  /** The progress bar: one leading filled cell, then `cells` filled and the
      rest empty. */
  function Bar(cells: nat): (bar: string)
    requires cells <= BarCells
    ensures |bar| == BarCells + 1
    ensures forall k :: 0 <= k < |bar| ==> (bar[k] == '▰' <==> k <= cells)
  {
    "▰" + Repeat('▰', cells) + Repeat('▱', BarCells - cells)
  }

  /** The bar never shrinks while the loop advances. */
  lemma FilledMonotone(i: nat, j: nat, total: nat)
    requires 1 <= i <= j <= total
    ensures Filled(i, total) <= Filled(j, total)
  {
    DivMonotone(BarCells * i, BarCells * j, total);
  }

  lemma DivMonotone(a: nat, b: nat, d: nat)
    requires a <= b && d > 0
    ensures a / d <= b / d
  {
    var qa, qb := a / d, b / d;
    assert d * qa + a % d == a && d * qb + b % d == b;
    if qa > qb {
      MulMonotone(d, qb + 1, qa);
      assert false;
    }
  }

  lemma MulMonotone(d: nat, x: int, y: int)
    requires x <= y
    ensures d * x <= d * y
  {
    assert d * y - d * x == d * (y - x);
  }

  /** One edit of the progress message. */
  datatype Progress = Progress(index: nat, total: nat, filled: nat, success: nat, failed: nat)

  /** The edit after the `i`-th recipient: its position, the bar, and the
      counters over the first `i` recipients. */
  function ProgressAt(ds: seq<Delivery>, i: nat): (p: Progress)
    requires 1 <= i <= |ds|
    ensures p.index == i && p.total == |ds| && p.filled == Filled(i, |ds|) && p.filled <= BarCells
    ensures p.success == CountDelivered(ds[..i]) && p.success + p.failed == i
  {
    CountDeliveredIsCardinality(ds[..i]);
    var success := CountDelivered(ds[..i]);
    Progress(i, |ds|, Filled(i, |ds|), success, i - success)
  }

  /** The progress edits made for the first `i` recipients. */
  function ProgressLog(ds: seq<Delivery>, i: nat): (log: seq<Progress>)
    requires i <= |ds|
    ensures |log| <= i
  {
    if i == 0 then []
    else
      CountDeliveredIsCardinality(ds[..i]);
      ProgressLog(ds, i - 1) + (if IsCheckpoint(i, |ds|) then [ProgressAt(ds, i)] else [])
  }

  /** Every edit is made at a checkpoint, shows a bar of eleven cells, and
      counts each recipient so far exactly once; the edits come in order. */
  lemma {:induction false} ProgressLogSound(ds: seq<Delivery>, i: nat)
    requires i <= |ds|
    ensures forall p | p in ProgressLog(ds, i) ::
              && 1 <= p.index <= i && IsCheckpoint(p.index, |ds|)
              && p.filled <= BarCells && |Bar(p.filled)| == BarCells + 1
              && p.success + p.failed == p.index
    ensures forall a, b :: 0 <= a < b < |ProgressLog(ds, i)| ==> ProgressLog(ds, i)[a].index < ProgressLog(ds, i)[b].index
  {
    if i > 0 {
      ProgressLogSound(ds, i - 1);
      CountDeliveredIsCardinality(ds[..i]);
    }
  }

  /** Conversely, every checkpoint up to `i` gets its edit. */
  lemma {:induction false} ProgressLogComplete(ds: seq<Delivery>, i: nat, c: nat)
    requires i <= |ds| && 1 <= c <= i && IsCheckpoint(c, |ds|)
    ensures exists p :: p in ProgressLog(ds, i) && p.index == c
  {
    if c == i {
      assert ProgressLog(ds, i)[|ProgressLog(ds, i)| - 1] == ProgressAt(ds, i);
    } else {
      ProgressLogComplete(ds, i - 1, c);
      var p :| p in ProgressLog(ds, i - 1) && p.index == c;
      assert p in ProgressLog(ds, i);
    }
  }

  /** The last edit is made for the last recipient, with a full bar and the
      final counts. */
  lemma LastProgress(ds: seq<Delivery>)
    requires |ds| > 0
    ensures |ProgressLog(ds, |ds|)| > 0
    ensures var last := ProgressLog(ds, |ds|)[|ProgressLog(ds, |ds|)| - 1];
            last.index == |ds| && last.filled == BarCells && last.success == CountDelivered(ds)
  {
    assert ds[..|ds|] == ds;
  }

  /** Up to (not including) the last recipient there is one edit per full
      batch of fifty. */
  lemma {:induction false} ProgressLogBatches(ds: seq<Delivery>, i: nat)
    requires i < |ds|
    ensures |ProgressLog(ds, i)| == i / BatchSize
  {
    if i > 0 {
      ProgressLogBatches(ds, i - 1);
      assert i / BatchSize == (i - 1) / BatchSize + (if i % BatchSize == 0 then 1 else 0);
    }
  }

  /** The outcome of the loop of `execute_mailing`. */
  datatype Broadcast = Broadcast(success: nat, failed: nat, sends: seq<int>, updates: seq<Progress>)

  /** One more recipient: the send log, the success count and the progress
      edits each grow by exactly that recipient's share. */
  lemma BroadcastStep(recipients: seq<int>, ds: seq<Delivery>, i: nat)
    requires |ds| == |recipients| && i < |ds|
    ensures SendLog(recipients[..i + 1], ds[..i + 1]) == SendLog(recipients[..i], ds[..i]) + SendsTo(recipients[i], ds[i])
    ensures CountDelivered(ds[..i + 1]) == CountDelivered(ds[..i]) + (if Delivered(ds[i]) then 1 else 0)
    ensures ProgressLog(ds, i + 1) ==
              ProgressLog(ds, i) + (if IsCheckpoint(i + 1, |ds|) then [ProgressAt(ds, i + 1)] else [])
  {
    assert ds[..i + 1][..i] == ds[..i];
    assert recipients[..i + 1][..i] == recipients[..i];
  }

  /** The edit the loop makes after the `n`-th recipient is `ProgressAt`. */
  lemma ProgressStep(ds: seq<Delivery>, n: nat, p: Progress)
    requires 1 <= n <= |ds|
    requires p.success == CountDelivered(ds[..n]) && p.success + p.failed == n
    requires p == Progress(n, |ds|, (BarCells * n) / |ds|, p.success, p.failed)
    ensures p == ProgressAt(ds, n)
  {
  }

  /** The loop of `execute_mailing` over the recipients, given what the
      messenger answers to each of their sends. */
  method RunBroadcast(recipients: seq<int>, ds: seq<Delivery>) returns (b: Broadcast)
    requires |ds| == |recipients|
    ensures b.success == CountDelivered(ds)
    ensures b.success + b.failed == |recipients|
    ensures b.sends == SendLog(recipients, ds)
    ensures b.updates == ProgressLog(ds, |ds|)
  {
    var total := |recipients|;
    var success, failed := 0, 0;
    var sends: seq<int> := [];
    var updates: seq<Progress> := [];
    for i := 0 to total
      invariant success == CountDelivered(ds[..i])
      invariant success + failed == i
      invariant sends == SendLog(recipients[..i], ds[..i])
      invariant updates == ProgressLog(ds, i)
    {
      BroadcastStep(recipients, ds, i);
      ghost var sendsBefore, successBefore := sends, success;
      var user := recipients[i];
      sends := sends + [user];
      match ds[i].first {
        case Success =>
          success := success + 1;
        case Forbidden =>
          failed := failed + 1;
        case RetryAfter(_) =>
          sends := sends + [user];
          assert sends == sendsBefore + [user, user];
          if ds[i].retry.Success? {
            success := success + 1;
          } else {
            failed := failed + 1;
          }
        case OtherError =>
          failed := failed + 1;
      }
      assert sends == sendsBefore + SendsTo(user, ds[i]);
      assert success == successBefore + (if Delivered(ds[i]) then 1 else 0);
      var n := i + 1;
      if n % BatchSize == 0 || n == total {
        var progress := Progress(n, total, (BarCells * n) / total, success, failed);
        ProgressStep(ds, n, progress);
        updates := updates + [progress];
      }
    }
    assert ds[..total] == ds;
    assert recipients[..total] == recipients;
    b := Broadcast(success, failed, sends, updates);
  }

  // ------------------------------------------------------------ the mailing conversation

  datatype MailingState = WaitingText | WaitingConfirm

  const PanelTitle := "\U{1F468}\U{200D}\U{1F4BB} Админ-панель:"
  const AskText := "Введите текст"

  function ConfirmPrompt(html: string): string {
    "Подтвердите рассылку:\n\n" + html + "\n\nБудет отправлено всем пользователям бота."
  }

  /** The final report of `execute_mailing`. */
  datatype Report = Report(text: string, recipients: seq<int>, result: Broadcast)

  class MailingPanel {
    /** `ADMINS_IDS`. */
    const admins: set<int>
    /** Per-user FSM state of the mailing conversation. */
    var states: map<int, MailingState>
    /** Per-user FSM data. */
    var data: map<int, map<string, string>>

    /** A confirmation always finds the text it is to send. */
    ghost predicate Valid()
      reads this
    {
      forall u | u in states && states[u] == WaitingConfirm :: u in data && "mailing_text" in data[u]
    }

    constructor (adminIds: set<int>)
      ensures Valid() && admins == adminIds && states == map[] && data == map[]
    {
      admins, states, data := adminIds, map[], map[];
    }

    /** The admin router's message handlers, tried in order behind the admin
        filter: `/admin` from any state clears the state and shows the panel;
        otherwise, in `WAITING_TEXT`, the text is stored and confirmation is
        asked for. Anything else is not handled here. */
    method OnMessage(u: int, text: string, html: string) returns (handled: bool, reply: string)
      requires Valid()
      modifies this
      ensures Valid()
      ensures !IsAdminFilter(u, admins, Some(text)) ==> !handled && states == old(states) && data == old(data)
      ensures u in admins && IsCommand(text, "admin") ==>
                handled && reply == PanelTitle && states == old(states) - {u} && data == old(data) - {u}
      ensures u in admins && !IsCommand(text, "admin") && u in old(states) && old(states)[u] == WaitingText ==>
                && handled && reply == ConfirmPrompt(html)
                && states == old(states)[u := WaitingConfirm]
                && data == old(data)[u := (if u in old(data) then old(data)[u] else map[])["mailing_text" := html]]
      ensures u in admins && !IsCommand(text, "admin") && !(u in old(states) && old(states)[u] == WaitingText) ==>
                !handled && states == old(states) && data == old(data)
    {
      if !IsAdminFilter(u, admins, Some(text)) {
        handled, reply := false, "";
      } else if IsCommand(text, "admin") {
        states := states - {u};
        data := data - {u};
        handled, reply := true, PanelTitle;
      } else if u in states && states[u] == WaitingText {
        var stored := if u in data then data[u] else map[];
        data := data[u := stored["mailing_text" := html]];
        states := states[u := WaitingConfirm];
        handled, reply := true, ConfirmPrompt(html);
      } else {
        handled, reply := false, "";
      }
    }

    /** `mailing` (the `admin_mailing` button): asks for the text. */
    method Mailing(u: int) returns (handled: bool, reply: string)
      requires Valid()
      modifies this
      ensures Valid()
      ensures handled <==> u in admins
      ensures handled ==> reply == AskText && states == old(states)[u := WaitingText]
      ensures !handled ==> states == old(states)
      ensures data == old(data)
    {
      if !IsAdminFilter(u, admins, None) {
        handled, reply := false, "";
        return;
      }
      states := states[u := WaitingText];
      handled, reply := true, AskText;
    }

    /** `execute_mailing` (the `confirm_mailing` button in `WAITING_CONFIRM`):
        broadcasts the stored text to every stored id but the admin's own,
        then clears the state. */
    method ExecuteMailing(u: int, storedIds: seq<int>, ds: seq<Delivery>) returns (handled: bool, report: Report)
      requires Valid()
      requires |ds| == |Recipients(storedIds, u)|
      modifies this
      ensures Valid()
      ensures handled <==> u in admins && u in old(states) && old(states)[u] == WaitingConfirm
      ensures !handled ==> states == old(states) && data == old(data)
      ensures handled ==>
                && report.text == old(data)[u]["mailing_text"]
                && report.recipients == Recipients(storedIds, u)
                && report.result.success == CountDelivered(ds)
                && report.result.success + report.result.failed == |report.recipients|
                && report.result.sends == SendLog(report.recipients, ds)
                && report.result.updates == ProgressLog(ds, |ds|)
                && states == old(states) - {u} && data == old(data) - {u}
    {
      if !IsAdminFilter(u, admins, None) || u !in states || states[u] != WaitingConfirm {
        handled := false;
        report := Report("", [], Broadcast(0, 0, [], []));
        return;
      }
      var text := data[u]["mailing_text"];
      var recipients := Recipients(storedIds, u);
      var result := RunBroadcast(recipients, ds);
      states := states - {u};
      data := data - {u};
      handled := true;
      report := Report(text, recipients, result);
    }
  }
}
