/**
 * Automatic handling of repository invitations (`InvitationHandler` in
 * hls/src/hsl_handler/handlers.py): the accept / decline / skip decision and
 * the loop that acts on every pending invitation and tallies the outcome.
 *
 * `fnmatch` is a glob-matching function given as a parameter; the GitHub
 * answers to accepting or declining are given per invitation.
 */
module Invitations {
  import opened Wrappers
  import opened Json
  import opened Config

  /** The fields of a pending invitation the handler reads; `owner` is whatever value the API put there. */
  datatype Invitation = Invitation(id: int, repoName: string, owner: Value, inviterLogin: string, inviterType: string)

  /** `fnmatch.fnmatch(text, pattern)`. */
  type Glob = (string, string) -> bool

  datatype Decision = Accept | Decline | NoMatch

  /** An optional list that restricts anything: Python treats `None` and `[]` alike as "no restriction". */
  predicate Restricts(xs: Option<seq<string>>) {
    xs.Some? && xs.value != []
  }

  /** Some pattern in `patterns` matches `text`; scanned in order, stopping at the first match. */
  function AnyMatch(text: string, patterns: seq<string>, glob: Glob): (b: bool)
    ensures b <==> exists i :: 0 <= i < |patterns| && glob(text, patterns[i])
  {
    if patterns == [] then false
    else if glob(text, patterns[0]) then true
    else
      var b := AnyMatch(text, patterns[1..], glob);
      assert forall i :: 1 <= i < |patterns| ==> patterns[i] == patterns[1..][i - 1];
      b
  }

  /** The organisation restriction holds: none is set, or the owner value equals one of the listed names. */
  predicate OrgAllowed(c: InvitationCriteria, owner: Value) {
    !Restricts(c.fromOrganizations) || (owner.Str? && owner.s in c.fromOrganizations.value)
  }

  predicate UserAllowed(c: InvitationCriteria, login: string) {
    !Restricts(c.fromUsers) || login in c.fromUsers.value
  }

  /**
   * `_evaluate_invitation`: exclusions are checked first; otherwise accept
   * when a repository pattern matches and both restrictions hold.
   */
  function EvaluateInvitation(c: InvitationCriteria, inv: Invitation, glob: Glob): (d: Decision)
    ensures d == Decline <==>
      Restricts(c.excludePatterns) && exists i :: 0 <= i < |c.excludePatterns.value| && glob(inv.repoName, c.excludePatterns.value[i])
    ensures d == Accept <==>
      && d != Decline
      && (exists i :: 0 <= i < |c.repositoryPatterns| && glob(inv.repoName, c.repositoryPatterns[i]))
      && OrgAllowed(c, inv.owner)
      && UserAllowed(c, inv.inviterLogin)
    ensures inv.owner.Dict? && Restricts(c.fromOrganizations) ==> d != Accept
  {
    if Restricts(c.excludePatterns) && AnyMatch(inv.repoName, c.excludePatterns.value, glob) then Decline
    else if AnyMatch(inv.repoName, c.repositoryPatterns, glob) && OrgAllowed(c, inv.owner) && UserAllowed(c, inv.inviterLogin) then Accept
    else NoMatch
  }

  // ---------------------------------------------------------------- processing

  /** What GitHub did with an accept or decline request: it succeeded, it returned failure, or the call raised. */
  datatype ApiResult = Succeeded | Refused | Raised(message: string)

  /** The client calls the handler makes. */
  datatype ClientCall = FetchInvitations | AcceptInvitation(id: int) | DeclineInvitation(id: int)

  /** One entry of `processed_invitations` (the setup result of an accepted invitation is not modelled). */
  datatype Entry = Entry(id: int, repository: string, action: string, reason: string)

  /** What the loop has built so far. */
  datatype Tally = Tally(entries: seq<Entry>, accepted: nat, declined: nat, calls: seq<ClientCall>)

  /** What one invitation adds to the tally, given the answer to its API call. */
  function StepOf(c: InvitationCriteria, inv: Invitation, answer: ApiResult, glob: Glob, t: Tally): Tally {
    match EvaluateInvitation(c, inv, glob)
    case Accept =>
      var calls := t.calls + [AcceptInvitation(inv.id)];
      (match answer
       case Succeeded => Tally(t.entries + [Entry(inv.id, inv.repoName, "accepted", "matched criteria")], t.accepted + 1, t.declined, calls)
       case Refused => Tally(t.entries + [Entry(inv.id, inv.repoName, "failed", "api error")], t.accepted, t.declined, calls)
       case Raised(m) => Tally(t.entries + [Entry(inv.id, inv.repoName, "error", m)], t.accepted, t.declined, calls))
    case Decline =>
      var calls := t.calls + [DeclineInvitation(inv.id)];
      (match answer
       case Succeeded => Tally(t.entries + [Entry(inv.id, inv.repoName, "declined", "excluded by criteria")], t.accepted, t.declined + 1, calls)
       case Refused => t.(calls := calls)
       case Raised(m) => Tally(t.entries + [Entry(inv.id, inv.repoName, "error", m)], t.accepted, t.declined, calls))
    case NoMatch =>
      t.(entries := t.entries + [Entry(inv.id, inv.repoName, "skipped", "no match")])
  }

  /** The tally after the loop has visited `invs`, the i-th answered by `answers[i]`. */
  function TallyOf(c: InvitationCriteria, invs: seq<Invitation>, answers: seq<ApiResult>, glob: Glob): Tally
    requires |answers| == |invs|
  {
    if invs == [] then Tally([], 0, 0, [FetchInvitations])
    else
      var last := |invs| - 1;
      StepOf(c, invs[last], answers[last], glob, TallyOf(c, invs[..last], answers[..last], glob))
  }

  /** How many entries record `action`. */
  function CountAction(entries: seq<Entry>, action: string): nat {
    if entries == [] then 0
    else CountAction(entries[..|entries| - 1], action) + (if entries[|entries| - 1].action == action then 1 else 0)
  }

  lemma CountActionAppend(entries: seq<Entry>, e: Entry, action: string)
    ensures CountAction(entries + [e], action) == CountAction(entries, action) + (if e.action == action then 1 else 0)
  {
    assert (entries + [e])[..|entries|] == entries;
  }

  /** Invitations that were to be declined but whose decline GitHub refused: these leave no entry. */
  function RefusedDeclines(c: InvitationCriteria, invs: seq<Invitation>, answers: seq<ApiResult>, glob: Glob): nat
    requires |answers| == |invs|
  {
    if invs == [] then 0
    else
      var last := |invs| - 1;
      RefusedDeclines(c, invs[..last], answers[..last], glob)
        + (if EvaluateInvitation(c, invs[last], glob) == Decline && answers[last] == Refused then 1 else 0)
  }

  /** The counters of `t` agree with its entries. */
  predicate CountersAgree(t: Tally) {
    t.accepted == CountAction(t.entries, "accepted") && t.declined == CountAction(t.entries, "declined")
  }

  lemma CountActionBound(entries: seq<Entry>)
    ensures CountAction(entries, "accepted") + CountAction(entries, "declined") <= |entries|
  {
    if entries != [] {
      CountActionBound(entries[..|entries| - 1]);
    }
  }

  /** One invitation keeps the counters in agreement, and adds an entry unless its decline was refused. */
  lemma StepKeepsCounters(c: InvitationCriteria, inv: Invitation, answer: ApiResult, glob: Glob, t: Tally)
    requires CountersAgree(t)
    ensures CountersAgree(StepOf(c, inv, answer, glob, t))
    ensures |StepOf(c, inv, answer, glob, t).entries|
      == |t.entries| + (if EvaluateInvitation(c, inv, glob) == Decline && answer == Refused then 0 else 1)
  {
    var t' := StepOf(c, inv, answer, glob, t);
    if |t'.entries| > |t.entries| {
      CountActionAppend(t.entries, t'.entries[|t.entries|], "accepted");
      CountActionAppend(t.entries, t'.entries[|t.entries|], "declined");
      assert t'.entries == t.entries + [t'.entries[|t.entries|]];
    }
  }

  /**
   * The counters agree with the entries: `accepted` and `declined` count the
   * entries recording a successful call, and every invitation leaves exactly
   * one entry except those whose decline was refused.
   */
  lemma {:induction false} TallyConsistent(c: InvitationCriteria, invs: seq<Invitation>, answers: seq<ApiResult>, glob: Glob)
    requires |answers| == |invs|
    ensures var t := TallyOf(c, invs, answers, glob);
      && CountersAgree(t)
      && |t.entries| + RefusedDeclines(c, invs, answers, glob) == |invs|
      && t.accepted + t.declined <= |t.entries| <= |invs|
  {
    if invs != [] {
      var last := |invs| - 1;
      TallyConsistent(c, invs[..last], answers[..last], glob);
      StepKeepsCounters(c, invs[last], answers[last], glob, TallyOf(c, invs[..last], answers[..last], glob));
    }
    CountActionBound(TallyOf(c, invs, answers, glob).entries);
  }

  /**
   * The handler's reply. The source's "disabled" reply and its reply for no
   * pending invitations carry only `status` and `processed` (and an empty
   * `invitations` list); here they have zero counters and no entries.
   */
  datatype Report = Report(status: string, processed: nat, accepted: nat, declined: nat, entries: seq<Entry>)

  /**
   * `process_invitations`: nothing happens when the feature is off; otherwise
   * the pending invitations are fetched (`None` when the fetch raises, which
   * the method does not catch, so there is no report) and every fetched
   * invitation is evaluated in order and acted upon.
   */
  method ProcessInvitations(config: AutoAcceptConfig, invitations: Option<seq<Invitation>>, answers: seq<ApiResult>, glob: Glob)
    returns (report: Option<Report>, calls: seq<ClientCall>)
    requires invitations.Some? ==> |answers| == |invitations.value|
    ensures !config.enabled ==> report == Some(Report("disabled", 0, 0, 0, [])) && calls == []
    ensures config.enabled && invitations.None? ==> report.None? && calls == [FetchInvitations]
    ensures report.Some? && report.value.status == "success" <==> config.enabled && invitations.Some?
    ensures config.enabled && invitations.Some? ==>
      var t := TallyOf(config.criteria, invitations.value, answers, glob);
      && report == Some(Report("success", |t.entries|, t.accepted, t.declined, t.entries))
      && calls == t.calls
  {
    if !config.enabled {
      return Some(Report("disabled", 0, 0, 0, [])), [];
    }
    calls := [FetchInvitations];
    if invitations.None? {
      return None, calls;
    }
    var fetched := invitations.value;
    if fetched == [] {
      return Some(Report("success", 0, 0, 0, [])), calls;
    }
    var entries: seq<Entry> := [];
    var accepted: nat := 0;
    var declined: nat := 0;
    var k := 0;
    while k < |fetched|
      invariant 0 <= k <= |fetched|
      invariant Tally(entries, accepted, declined, calls) == TallyOf(config.criteria, fetched[..k], answers[..k], glob)
    {
      assert fetched[..k + 1][..k] == fetched[..k];
      assert answers[..k + 1][..k] == answers[..k];
      var inv := fetched[k];
      var decision := EvaluateInvitation(config.criteria, inv, glob);
      if decision == Accept {
        calls := calls + [AcceptInvitation(inv.id)];
        match answers[k]
        case Succeeded =>
          accepted := accepted + 1;
          entries := entries + [Entry(inv.id, inv.repoName, "accepted", "matched criteria")];
        case Refused =>
          entries := entries + [Entry(inv.id, inv.repoName, "failed", "api error")];
        case Raised(m) =>
          entries := entries + [Entry(inv.id, inv.repoName, "error", m)];
      } else if decision == Decline {
        calls := calls + [DeclineInvitation(inv.id)];
        match answers[k]
        case Succeeded =>
          declined := declined + 1;
          entries := entries + [Entry(inv.id, inv.repoName, "declined", "excluded by criteria")];
        case Refused =>
        case Raised(m) =>
          entries := entries + [Entry(inv.id, inv.repoName, "error", m)];
      } else {
        entries := entries + [Entry(inv.id, inv.repoName, "skipped", "no match")];
      }
      k := k + 1;
    }
    assert fetched[..k] == fetched;
    assert answers[..k] == answers;
    report := Some(Report("success", |entries|, accepted, declined, entries));
  }
}
