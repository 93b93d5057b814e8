/** Effects of an approved command (app_mcp_command_effects.go): jobs queued in
    the business transaction, their sealed form in the receipt, and the one
    delivery status shown for a set of them. */
module Effects {
  import opened Wrappers
  import opened OwnerRecord

  const EFFECT_LIMIT := 64
  const TARGET_LIMIT := 128
  const ID_LIMIT := 0x7FFF_FFFF_FFFF_FFFF

  datatype Kind = Hook | Webhook | Flow | Transfer | OtherKind(name: string)

  datatype Intent = Intent(kind: Kind, target: string, digest: Token)

  /** One effect of a receipt; the id is the job's row id. */
  datatype Effect = Effect(id: int, intent: Intent)

  predicate IntentOk(i: Intent) {
    && !i.kind.OtherKind?
    && 0 < |i.target| <= TARGET_LIMIT
    && (if i.kind.Transfer? then HexToken(i.digest) else i.digest.Unset?)
  }

  predicate EffectOk(e: Effect) { 0 < e.id <= ID_LIMIT && IntentOk(e.intent) }

  predicate EffectsOk(effects: seq<Effect>) {
    |effects| <= EFFECT_LIMIT && forall i :: 0 <= i < |effects| ==> EffectOk(effects[i])
  }

  /** The receipt reader's loop over the stored effects. */
  method Decode(stored: seq<Effect>) returns (r: Option<seq<Effect>>)
    ensures r.Some? <==> EffectsOk(stored)
    ensures r.Some? ==> r.value == stored
  {
    if |stored| > EFFECT_LIMIT {
      return None;
    }
    var effects: seq<Effect> := [];
    for i := 0 to |stored|
      invariant effects == stored[..i]
      invariant forall j :: 0 <= j < i ==> EffectOk(stored[j])
    {
      if !EffectOk(stored[i]) {
        return None;
      }
      effects := effects + [stored[i]];
    }
    return Some(effects);
  }

  // ---- delivery status -------------------------------------------------------

  datatype Delivery = Pending | Unknown | Blocked | Failed | Delivered

  datatype JobError = NoError | BlockedError | WorkerDied | UnknownError | PlainError

  datatype JobStatus = JobPending | JobRunning(leaseLapsed: bool) | JobCompleted | JobFailed(error: JobError) | JobOther

  /** A missing row (None) proves nothing. */
  function Status(row: Option<JobStatus>): (d: Delivery)
    ensures d.Delivered? <==> row == Some(JobCompleted)
    ensures d.Pending? <==> row == Some(JobPending) || row == Some(JobRunning(false))
    ensures d.Blocked? <==> row == Some(JobFailed(BlockedError))
    ensures d.Failed? <==> row == Some(JobFailed(NoError)) || row == Some(JobFailed(PlainError))
  {
    if row.None? then Unknown else
    match row.value
    case JobPending => Pending
    case JobRunning(lapsed) => if lapsed then Unknown else Pending
    case JobCompleted => Delivered
    case JobFailed(BlockedError) => Blocked
    case JobFailed(WorkerDied) => Unknown
    case JobFailed(UnknownError) => Unknown
    case JobFailed(_) => Failed
    case JobOther => Unknown
  }

  datatype Summary = Nothing | All(status: Delivery)

  /** In flight first, then the least certain outcome. */
  function Rank(d: Delivery): nat {
    match d
    case Pending => 0
    case Unknown => 1
    case Blocked => 2
    case Failed => 3
    case Delivered => 4
  }

  const URGENT: seq<Delivery> := [Pending, Unknown, Blocked, Failed]

  /** The nested scan: for each status in order of urgency, is it present? The
      answer is the most urgent status present. */
  method Aggregate(statuses: seq<Delivery>) returns (s: Summary)
    ensures s.Nothing? <==> statuses == []
    ensures s.All? ==> s.status in statuses && forall d :: d in statuses ==> Rank(s.status) <= Rank(d)
    ensures s == All(Delivered) <==> statuses != [] && forall d :: d in statuses ==> d == Delivered
  {
    if |statuses| == 0 {
      return Nothing;
    }
    for w := 0 to |URGENT|
      invariant forall d :: d in statuses ==> Rank(d) >= w
    {
      for i := 0 to |statuses|
        invariant forall j :: 0 <= j < i ==> statuses[j] != URGENT[w]
      {
        if statuses[i] == URGENT[w] {
          return All(URGENT[w]);
        }
      }
    }
    assert statuses[0] in statuses;
    return All(Delivered);
  }
}
