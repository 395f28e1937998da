/** The stack of live API callers, whose guards may be dropped in any order. */
module CallerStack {
  import opened Wrappers

  datatype Frame = Frame(token: nat, channel: Option<nat>)

  /** A caller enters, for a channel or masking one; the guard of an earlier entry drops. */
  datatype Change = Enter(channel: Option<nat>) | Leave(token: nat)

  // ----- which frames should be live

  /** The frames entered over a history, numbered as they come. */
  function Entered(history: seq<Change>): (frames: seq<Frame>)
    ensures forall i :: 0 <= i < |frames| ==> frames[i].token == i
  {
    if history == [] then []
    else
      var before, last := Entered(history[..|history| - 1]), history[|history| - 1];
      if last.Enter? then before + [Frame(|before|, last.channel)] else before
  }

  function Left(history: seq<Change>): set<nat> {
    set c | c in history && c.Leave? :: c.token
  }

  function Without(frames: seq<Frame>, gone: set<nat>): seq<Frame> {
    if frames == [] then []
    else
      var before, last := Without(frames[..|frames| - 1], gone), frames[|frames| - 1];
      if last.token in gone then before else before + [last]
  }

  /** A guard exists only for a caller that has entered. */
  predicate GuardsExist(history: seq<Change>) {
    forall i :: 0 <= i < |history| && history[i].Leave? ==> history[i].token < |Entered(history[..i])|
  }

  lemma {:induction false} WithoutConcat(a: seq<Frame>, b: seq<Frame>, gone: set<nat>)
    ensures Without(a + b, gone) == Without(a, gone) + Without(b, gone)
  {
    if b == [] {
      assert a + b == a;
    } else {
      var n := |b| - 1;
      assert (a + b)[..|a + b| - 1] == a + b[..n];
      WithoutConcat(a, b[..n], gone);
    }
  }

  lemma {:induction false} WithoutNone(frames: seq<Frame>, gone: set<nat>)
    requires forall i :: 0 <= i < |frames| ==> frames[i].token !in gone
    ensures Without(frames, gone) == frames
  {
    if frames != [] {
      WithoutNone(frames[..|frames| - 1], gone);
    }
  }

  lemma {:induction false} WithoutBoth(frames: seq<Frame>, gone: set<nat>, token: nat)
    ensures Without(Without(frames, gone), {token}) == Without(frames, gone + {token})
  {
    if frames != [] {
      var n := |frames| - 1;
      WithoutBoth(frames[..n], gone, token);
      WithoutConcat(Without(frames[..n], gone), if frames[n].token in gone then [] else [frames[n]], {token});
      assert Without([frames[n]], {token}) == if frames[n].token == token then [] else [frames[n]];
    }
  }

  /** Tokens go up along the stack. */
  predicate Rising(frames: seq<Frame>) {
    forall i, j :: 0 <= i < j < |frames| ==> frames[i].token < frames[j].token
  }

  lemma {:induction false} WithoutOne(frames: seq<Frame>, p: nat)
    requires Rising(frames) && p < |frames|
    ensures Without(frames, {frames[p].token}) == frames[..p] + frames[p + 1..]
  {
    var n := |frames| - 1;
    assert Rising(frames[..n]);
    if p == n {
      WithoutNone(frames[..n], {frames[n].token});
    } else {
      WithoutOne(frames[..n], p);
      assert frames[p].token < frames[n].token;
      assert frames[..n][..p] == frames[..p] && frames[..n][p + 1..] + [frames[n]] == frames[p + 1..];
    }
  }

  lemma {:induction false} WithoutRising(frames: seq<Frame>, gone: set<nat>)
    requires Rising(frames)
    ensures Rising(Without(frames, gone)) && forall f :: f in Without(frames, gone) ==> f in frames
  {
    if frames != [] {
      var n := |frames| - 1;
      assert Rising(frames[..n]);
      WithoutRising(frames[..n], gone);
      forall f | f in Without(frames[..n], gone)
        ensures f.token < frames[n].token
      {
        var i :| 0 <= i < n && frames[..n][i] == f;
        assert frames[i].token < frames[n].token;
      }
    }
  }

  lemma LeftGrows(history: seq<Change>, c: Change)
    ensures Left(history + [c]) == Left(history) + if c.Leave? then {c.token} else {}
  {
  }

  lemma LeftWereIssued(history: seq<Change>, token: nat)
    requires GuardsExist(history) && token in Left(history)
    ensures token < |Entered(history)|
  {
    var i :| 0 <= i < |history| && history[i] == Leave(token);
    EnteredGrows(history, i);
  }

  lemma {:induction false} EnteredGrows(history: seq<Change>, i: nat)
    requires i <= |history|
    ensures |Entered(history[..i])| <= |Entered(history)|
  {
    if i == |history| {
      assert history[..i] == history;
    } else {
      assert history[..|history| - 1][..i] == history[..i];
      EnteredGrows(history[..|history| - 1], i);
    }
  }

  // ----- the stack

  class Callers {
    var frames: seq<Frame>
    var nextToken: nat

    ghost predicate Valid()
      reads this
    {
      Rising(frames) && forall i :: 0 <= i < |frames| ==> frames[i].token < nextToken
    }

    constructor ()
      ensures Valid() && frames == [] && nextToken == 0
    {
      frames, nextToken := [], 0;
    }

    method EnterCall(channel: Option<nat>) returns (token: nat)
      requires Valid()
      modifies this
      ensures Valid() && token == old(nextToken) && nextToken == token + 1
      ensures frames == old(frames) + [Frame(token, channel)]
    {
      token := nextToken;
      nextToken := nextToken + 1;
      frames := frames + [Frame(token, channel)];
    }

    /** Removes the guard's own frame, wherever it is by now. */
    method DropGuard(token: nat)
      requires Valid()
      modifies this`frames
      ensures Valid() && frames == Without(old(frames), {token})
    {
      WithoutRising(frames, {token});
      var pos := |frames|;
      while pos > 0
        invariant pos <= |frames| && frames == old(frames)
        invariant forall p :: 0 <= p < |frames| && pos <= p ==> frames[p].token != token
      {
        pos := pos - 1;
        if frames[pos].token == token {
          WithoutOne(frames, pos);
          frames := frames[..pos] + frames[pos + 1..];
          return;
        }
      }
      WithoutNone(frames, {token});
    }

    /** The channel of the innermost live caller. */
    function RequestingChannel(): Option<nat>
      reads this
    {
      if frames == [] then None else frames[|frames| - 1].channel
    }
  }

  lemma {:induction false} AllGone(frames: seq<Frame>, gone: set<nat>)
    requires forall i :: 0 <= i < |frames| ==> frames[i].token in gone
    ensures Without(frames, gone) == []
  {
    if frames != [] {
      AllGone(frames[..|frames| - 1], gone);
    }
  }

  /** The last frame not gone is the last one kept. */
  lemma InnermostLive(frames: seq<Frame>, gone: set<nat>, k: nat)
    requires k < |frames| && frames[k].token !in gone
    requires forall i :: k < i < |frames| ==> frames[i].token in gone
    ensures var live := Without(frames, gone); live != [] && live[|live| - 1] == frames[k]
  {
    var upTo, later := frames[..k + 1], frames[k + 1..];
    assert frames == upTo + later;
    assert Without(upTo, gone) == Without(upTo[..k], gone) + [frames[k]];
    hide Without;
    WithoutConcat(upTo, later, gone);
    AllGone(later, gone);
  }

  /** The caller with this token is live, and those that entered after it are not. */
  predicate Innermost(history: seq<Change>, k: nat) {
    && k < |Entered(history)| && k !in Left(history)
    && forall i :: k < i < |Entered(history)| ==> i in Left(history)
  }

  /** Whatever order guards drop in, the live frames are those entered and not left, in the
      order they were entered; and the requesting channel is that of the caller that entered
      last among those still live. */
  method RunHistory(callers: Callers, history: seq<Change>)
    requires callers.Valid() && callers.frames == [] && callers.nextToken == 0 && GuardsExist(history)
    modifies callers
    ensures callers.Valid() && callers.frames == Without(Entered(history), Left(history))
    ensures forall k: nat :: Innermost(history, k) ==> callers.RequestingChannel() == Entered(history)[k].channel
    ensures (forall k :: 0 <= k < |Entered(history)| ==> k in Left(history)) ==> callers.RequestingChannel() == None
  {
    assert Left([]) == {};
    for i := 0 to |history|
      invariant callers.Valid() && callers.frames == Without(Entered(history[..i]), Left(history[..i]))
      invariant callers.nextToken == |Entered(history[..i])|
    {
      ghost var past, c := history[..i], history[i];
      assert history[..i + 1] == past + [c] && (past + [c])[..i] == past;
      LeftGrows(past, c);
      NewTokenIsLive(history, i);
      match history[i]
      case Enter(channel) =>
        var token := callers.EnterCall(channel);
        WithoutConcat(Entered(past), [Frame(token, channel)], Left(past));
        WithoutNone([Frame(token, channel)], Left(past));
        assert Left(past) + {} == Left(past);
      case Leave(token) =>
        WithoutBoth(Entered(past), Left(past), token);
        callers.DropGuard(token);
      hide Without;
      hide Left;
    }
    assert history[..|history|] == history;
    hide Without;
    hide Left;
    RequestingIs(history);
  }

  lemma RequestingIs(history: seq<Change>)
    ensures forall k: nat :: Innermost(history, k) ==>
              var live := Without(Entered(history), Left(history));
                  live != [] && live[|live| - 1] == Entered(history)[k]
    ensures (forall k :: 0 <= k < |Entered(history)| ==> k in Left(history)) ==>
            Without(Entered(history), Left(history)) == []
  {
    hide Without;
    hide Left;
    if forall k :: 0 <= k < |Entered(history)| ==> k in Left(history) {
      AllGone(Entered(history), Left(history));
    }
    forall k: nat | Innermost(history, k)
      ensures var live := Without(Entered(history), Left(history));
              live != [] && live[|live| - 1] == Entered(history)[k]
    {
      InnermostLive(Entered(history), Left(history), k);
    }
  }

  lemma NewTokenIsLive(history: seq<Change>, i: nat)
    requires i <= |history| && GuardsExist(history)
    ensures |Entered(history[..i])| !in Left(history[..i])
  {
    var past := history[..i];
    forall j | 0 <= j < |past| && past[j].Leave?
      ensures past[j].token < |Entered(past[..j])|
    {
      assert history[j] == past[j] && history[..j] == past[..j];
    }
    if |Entered(past)| in Left(past) {
      LeftWereIssued(past, |Entered(past)|);
    }
  }
}
