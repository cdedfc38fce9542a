/** What reaches the socket when the driver issues several frames in a row:
    each frame is attempted in order, and the first exception stops the
    operation, so the frames before it are sent and none after it. */
module Transport {
  import opened Bytes
  import opened Frames

  /** How a driver call ends: normally, or with the exception it raised. */
  datatype Outcome = Pass | Fail(error: Error)

  /** One attempted send: the frame if it was built and the socket is open;
      otherwise the exception, the build's own coming first (the payload is
      built before the send helper looks at the socket). */
  function Attempt(socketOpen: bool, built: Result<Frame, Error>): Result<Frame, Error>
  {
    if built.Err? then built else if !socketOpen then Err(SocketNotOpen) else built
  }

  /** The frames that reach the socket when `plan` is attempted in order. */
  function Delivered(plan: seq<Result<Frame, Error>>): seq<Frame>
  {
    if plan == [] then []
    else match plan[0]
      case Ok(f) => [f] + Delivered(plan[1..])
      case Err(_) => []
  }

  /** How attempting `plan` in order ends. */
  function FirstError(plan: seq<Result<Frame, Error>>): Outcome
  {
    if plan == [] then Pass
    else match plan[0]
      case Ok(_) => FirstError(plan[1..])
      case Err(e) => Fail(e)
  }

  /** The sends stop at the first failure, and the failure reported is the
      one that stopped them: what is delivered is exactly the frames of the
      attempts before it, and the whole plan goes out when nothing fails. */
  lemma {:induction false} DeliveredIsOkPrefix(plan: seq<Result<Frame, Error>>)
    ensures |Delivered(plan)| <= |plan|
    ensures forall i :: 0 <= i < |Delivered(plan)| ==> plan[i] == Ok(Delivered(plan)[i])
    ensures FirstError(plan) == Pass <==> |Delivered(plan)| == |plan|
    ensures |Delivered(plan)| < |plan| ==> plan[|Delivered(plan)|] == Err(FirstError(plan).error)
  {
    if plan != [] && plan[0].Ok? {
      DeliveredIsOkPrefix(plan[1..]);
      var d := Delivered(plan);
      assert d == [plan[0].value] + Delivered(plan[1..]);
      forall i | 0 < i < |d|
        ensures plan[i] == Ok(d[i])
      {
        assert d[i] == Delivered(plan[1..])[i - 1];
      }
    }
  }

  /** Attempting `p` and then `q`: when `p` goes through, the result is that
      of `q` after the frames of `p`. */
  lemma {:induction false} PlanAppend(p: seq<Result<Frame, Error>>, q: seq<Result<Frame, Error>>)
    requires FirstError(p) == Pass
    ensures Delivered(p + q) == Delivered(p) + Delivered(q)
    ensures FirstError(p + q) == FirstError(q)
  {
    if p == [] {
      assert p + q == q;
    } else {
      assert (p + q)[1..] == p[1..] + q;
      PlanAppend(p[1..], q);
    }
  }

  /** One more successful attempt after a plan that went through. */
  lemma PlanExtend(p: seq<Result<Frame, Error>>, a: Result<Frame, Error>)
    requires FirstError(p) == Pass && a.Ok?
    ensures FirstError(p + [a]) == Pass
    ensures Delivered(p + [a]) == Delivered(p) + [a.value]
  {
    PlanAppend(p, [a]);
  }

  /** `q` attempted after `p` went through: the frames of `q` follow those
      of `p`, and the operation ends as `q` does. */
  lemma PlanThen(p: seq<Result<Frame, Error>>, q: seq<Result<Frame, Error>>, start: seq<Frame>, mid: seq<Frame>,
                 end: seq<Frame>)
    requires FirstError(p) == Pass && mid == start + Delivered(p) && end == mid + Delivered(q)
    ensures end == start + Delivered(p + q) && FirstError(p + q) == FirstError(q)
  {
    PlanAppend(p, q);
    AppendAssoc(start, Delivered(p), Delivered(q));
  }

  /** Whatever follows a plan that fails is never attempted. */
  lemma {:induction false} PlanFailIgnoresRest(q: seq<Result<Frame, Error>>, rest: seq<Result<Frame, Error>>)
    requires FirstError(q).Fail?
    ensures Delivered(q + rest) == Delivered(q)
    ensures FirstError(q + rest) == FirstError(q)
  {
    assert q != [];
    if q[0].Ok? {
      assert (q + rest)[1..] == q[1..] + rest;
      PlanFailIgnoresRest(q[1..], rest);
    }
  }

  /** Attempt k of a plan goes through after the first k did: the first
      k + 1 went through, and its frame follows theirs. */
  lemma PrefixStepPass(plan: seq<Result<Frame, Error>>, k: nat, start: seq<Frame>, before: seq<Frame>,
                       after: seq<Frame>)
    requires k < |plan| && plan[k].Ok?
    requires FirstError(plan[..k]) == Pass && before == start + Delivered(plan[..k])
    requires after == before + [plan[k].value]
    ensures FirstError(plan[..k + 1]) == Pass && after == start + Delivered(plan[..k + 1])
  {
    assert plan[..k + 1] == plan[..k] + [plan[k]];
    PlanExtend(plan[..k], plan[k]);
    AppendAssoc(start, Delivered(plan[..k]), [plan[k].value]);
  }

  /** Attempt k of a plan fails after the first k went through: the plan
      ends with that failure, and nothing after it is delivered. */
  lemma PrefixStepFail(plan: seq<Result<Frame, Error>>, k: nat, start: seq<Frame>, before: seq<Frame>,
                       after: seq<Frame>)
    requires k < |plan| && plan[k].Err?
    requires FirstError(plan[..k]) == Pass && before == start + Delivered(plan[..k])
    requires after == before
    ensures FirstError(plan) == Fail(plan[k].error) && after == start + Delivered(plan)
  {
    var tail := [plan[k]] + plan[k + 1..];
    assert plan == plan[..k] + tail;
    assert tail[0] == plan[k];
    PlanAppend(plan[..k], tail);
  }

  /** A part `q` that fails after `p` went through ends the operation with
      `q`'s failure, after the frames of `p` and those `q` got out. */
  lemma PlanFailsIn(p: seq<Result<Frame, Error>>, q: seq<Result<Frame, Error>>, rest: seq<Result<Frame, Error>>,
                    start: seq<Frame>, before: seq<Frame>, after: seq<Frame>)
    requires FirstError(p) == Pass && FirstError(q).Fail?
    requires before == start + Delivered(p) && after == before + Delivered(q)
    ensures after == start + Delivered(p + (q + rest)) && FirstError(p + (q + rest)) == FirstError(q)
  {
    PlanAppend(p, q + rest);
    PlanFailIgnoresRest(q, rest);
    AppendAssoc(start, Delivered(p), Delivered(q));
  }

  /** The first `k` plans of `ps` attempted one after another. */
  function Joined(ps: seq<seq<Result<Frame, Error>>>, k: nat): seq<Result<Frame, Error>>
    requires k <= |ps|
  {
    if k == 0 then [] else Joined(ps, k - 1) + ps[k - 1]
  }

  /** The plans of `ps` from the k-th on, one after another. */
  function JoinedFrom(ps: seq<seq<Result<Frame, Error>>>, k: nat): seq<Result<Frame, Error>>
    requires k <= |ps|
    decreases |ps| - k
  {
    if k == |ps| then [] else ps[k] + JoinedFrom(ps, k + 1)
  }

  /** All of `ps` is its first k plans followed by the rest. */
  lemma {:induction false} JoinedSplit(ps: seq<seq<Result<Frame, Error>>>, k: nat)
    requires k <= |ps|
    ensures Joined(ps, |ps|) == Joined(ps, k) + JoinedFrom(ps, k)
    decreases |ps| - k
  {
    if k < |ps| {
      JoinedSplit(ps, k + 1);
      assert Joined(ps, k + 1) + JoinedFrom(ps, k + 1) == Joined(ps, k) + (ps[k] + JoinedFrom(ps, k + 1));
    }
  }

  /** One more part of a multi-part operation, when it went through: the
      first k + 1 parts went through. */
  lemma JoinedStepPass(ps: seq<seq<Result<Frame, Error>>>, k: nat, start: seq<Frame>, before: seq<Frame>,
                       after: seq<Frame>)
    requires k < |ps|
    requires FirstError(Joined(ps, k)) == Pass && before == start + Delivered(Joined(ps, k))
    requires after == before + Delivered(ps[k]) && FirstError(ps[k]) == Pass
    ensures FirstError(Joined(ps, k + 1)) == Pass && after == start + Delivered(Joined(ps, k + 1))
  {
    PlanThen(Joined(ps, k), ps[k], start, before, after);
  }

  /** One more part of a multi-part operation, when it failed: the
      operation as a whole ends there. */
  lemma JoinedStepFail(ps: seq<seq<Result<Frame, Error>>>, k: nat, start: seq<Frame>, before: seq<Frame>,
                       after: seq<Frame>)
    requires k < |ps|
    requires FirstError(Joined(ps, k)) == Pass && before == start + Delivered(Joined(ps, k))
    requires after == before + Delivered(ps[k]) && FirstError(ps[k]).Fail?
    ensures after == start + Delivered(Joined(ps, |ps|)) && FirstError(ps[k]) == FirstError(Joined(ps, |ps|))
  {
    JoinedSplit(ps, k);
    assert JoinedFrom(ps, k) == ps[k] + JoinedFrom(ps, k + 1);
    PlanFailsIn(Joined(ps, k), ps[k], JoinedFrom(ps, k + 1), start, before, after);
  }

  lemma AppendAssoc(a: seq<Frame>, b: seq<Frame>, c: seq<Frame>)
    ensures a + b + c == a + (b + c)
  {
  }
}
