/** The NFS-e issue as an object the services update step by step: apps/issuance/fsm.py, services.py,
    polling.py and focus_webhook.py. Every service call is atomic; a raise restores the issue. */
module IssuanceServices {
  import opened Prelude
  import opened Issuance
  import Text

  class NfIssue {
    var status: Status
    var focusRef: string
    var snapshot: Option<nat>
    var params: Option<nat>
    var rejection: RejectionCode
    var log: seq<Event>
    var outbox: seq<Message>
    var inbox: set<Delivery>
    var emits: nat
    var attempts: nat

    function Row(): Issue
      reads this
    {
      Issue(status, focusRef, snapshot, params, rejection, log, outbox, inbox, emits, attempts)
    }

    /** Undoes a raised call, except for the emission the provider received. */
    method Restore(row: Issue)
      modifies this
      ensures Row() == row
    {
      status, focusRef, snapshot, params, rejection := row.status, row.focusRef, row.snapshot, row.params,
          row.rejection;
      log, outbox, inbox, emits, attempts := row.log, row.outbox, row.inbox, row.emits, row.attempts;
    }

    /** Takes one edge of the table and logs it, or refuses and leaves the issue alone. */
    method Take(to: Status, actor: Actor) returns (res: Result<(), IssueError>)
      modifies this`status, this`log
      ensures (Row(), res) == Commit(old(Row()), Transition(old(Row()), to, actor))
    {
      if !Allowed(status, to) {
        return Err(InvalidTransition);
      }
      var from := status;
      status := to;
      log := log + [Event(from, to, actor)];
      res := Ok(());
    }

    method Announce(to: Status, actor: Actor, m: Message) returns (res: Result<(), IssueError>)
      modifies this`status, this`log, this`outbox
      ensures (Row(), res) == Commit(old(Row()), Announced(Transition(old(Row()), to, actor), m))
    {
      res := Take(to, actor);
      if res.Ok? {
        outbox := outbox + [m];
      }
    }

    /** The tax resolution of an issue in PENDING_TAX. */
    method ApplyTax(tax: Tax)
      requires status == PendingTax
      modifies this`status, this`log, this`outbox, this`snapshot, this`params, this`rejection
      ensures ResolveTax(old(Row()), tax) == Ok(Row())
    {
      var res;
      match tax {
        case NoRule =>
          rejection := TaxRuleNotFound;
          res := Take(Rejected, Api);
        case RtcRefused(code) =>
          rejection := RtcCode(code);
          res := Take(Rejected, Api);
        case Resolved(rule) =>
          snapshot, params := Some(rule), Some(rule);
          res := Announce(Queued, Api, IssueQueued);
      }
    }

    constructor CreateNfIssue(tax: Tax)
      ensures Create(tax) == Ok(Row())
    {
      status, focusRef, snapshot, params, rejection := Draft, "", None, None, NoCode;
      log, outbox, inbox, emits, attempts := [], [], {}, 0, 0;
      new;
      var res := Take(PendingTax, Api);
      ApplyTax(tax);
    }

    method ReprocessNfIssue(tax: Tax) returns (res: Result<(), IssueError>)
      modifies this
      ensures (Row(), res) == Commit(old(Row()), Reprocess(old(Row()), tax))
    {
      res := Take(PendingTax, Api);
      if res.Ok? {
        rejection := NoCode;
        ApplyTax(tax);
      }
    }

    method ProcessQueuedIssue(answer: EmitAnswer) returns (res: Result<(), IssueError>)
      modifies this
      ensures (Row(), res) == Process(old(Row()), answer)
    {
      if status != Queued {
        return Ok(());
      }
      var saved := Row();
      res := Take(Submitting, Worker);
      match answer {
        case NotReached =>
          Restore(saved);
          return Err(ProviderRaised);
        case Raised =>
          Restore(saved);
          attempts := attempts + 1;
          return Err(ProviderRaised);
        case Returned(ref, authorized) =>
          focusRef, emits, attempts := ref, emits + 1, attempts + 1;
          res := Take(Polling, Worker);
          assert Submitted(saved, ref) == Ok(Row());
          if authorized {
            res := Announce(Authorized, Provider, IssueAuthorized);
          }
      }
    }

    method CancelNfIssue(justification: string, answer: Answer) returns (res: Result<(), IssueError>)
      modifies this`status, this`log, this`outbox
      ensures (Row(), res) == Cancel(old(Row()), justification, answer)
    {
      var text := Text.Strip(justification);
      if !(15 <= |text| <= 255) {
        return Err(JustificationLength);
      }
      if status != Authorized {
        return Err(NotAuthorized);
      }
      if focusRef == "" {
        return Err(NoFocusRef);
      }
      if answer.NoAnswer? {
        return Err(ProviderRaised);
      }
      if !SaysCancelled(answer.status) && !SaysCancelled(answer.raw) {
        return Err(CancelUnconfirmed);
      }
      res := Announce(Cancelled, Api, IssueCancelled);
    }

    method PollNfIssueStatus(answer: Answer) returns (res: Result<(), IssueError>)
      modifies this`status, this`log, this`outbox, this`rejection
      ensures (Row(), res) == Poll(old(Row()), answer)
    {
      if status != Polling && status != Authorized {
        return Ok(());
      }
      if focusRef == "" {
        if status == Polling {
          res := Take(Failed, Worker);
        } else {
          res := Ok(());
        }
        return;
      }
      if answer.NoAnswer? {
        return Err(ProviderRaised);
      }
      var said, raw := answer.status, answer.raw;
      if status == Authorized && (SaysCancelled(said) || SaysCancelled(raw)) {
        res := Announce(Cancelled, Provider, IssueCancelled);
        return;
      }
      if status != Polling {
        return Ok(());
      }
      if SaysAuthorized(said) || SaysAuthorized(raw) {
        res := Announce(Authorized, Provider, IssueAuthorized);
        return;
      }
      if SaysRejected(said) || SaysRejected(raw) || SaysCancelled(raw) {
        rejection := ProviderCode(if raw != Other("") then raw else said);
        res := Take(Rejected, Provider);
        return;
      }
      res := Ok(());
    }

    method Advance()
      modifies this`status, this`log
      ensures AdvanceToPolling(old(Row())) == Ok(Row())
    {
      var res;
      if status == Queued {
        res := Take(Submitting, Provider);
      }
      if status == Submitting {
        res := Take(Polling, Provider);
      }
    }

    method RejectByProvider(word: Word)
      modifies this`status, this`log, this`rejection
      ensures ProviderRejects(old(Row()), word) == Ok(Row())
    {
      rejection := ProviderCode(word);
      Advance();
      if status == Polling {
        var res := Take(Rejected, Provider);
      }
    }

    method ApplyStatus(word: Word)
      modifies this`status, this`log, this`outbox, this`rejection
      ensures ApplyProviderStatus(old(Row()), word) == Ok(Row())
    {
      if SaysCancelled(word) {
        if status == Cancelled {
          return;
        }
        if status == Authorized {
          var res := Announce(Cancelled, Provider, IssueCancelled);
          return;
        }
        RejectByProvider(word);
        return;
      }
      if SaysAuthorized(word) {
        if status == Authorized {
          return;
        }
        Advance();
        if status == Polling {
          var res := Announce(Authorized, Provider, IssueAuthorized);
        }
        return;
      }
      if SaysRejected(word) {
        if status == Rejected {
          return;
        }
        RejectByProvider(word);
      }
    }

    method IngestFocusWebhook(d: Delivery) returns (res: Result<(), IssueError>)
      modifies this
      ensures (Row(), res) == Webhook(old(Row()), d)
    {
      if d.ref == "" {
        return Err(NoReference);
      }
      if d in inbox {
        return Ok(());
      }
      if focusRef == "" {
        focusRef := d.ref;
      }
      ApplyStatus(d.status);
      inbox := inbox + {d};
      res := Ok(());
    }
  }
}
