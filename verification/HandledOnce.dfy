/** The sender's table and the receiver's filter together, over a network that may delay, lose and repeat:
    of all copies of one tracked message at most one is handled. */
module HandledOnce {
  import opened Wrappers
  import opened Integers
  import C = CallTable
  import D = DuplicateFilter

  /** When the message is sent between events `i` and `j`: once when it is tracked, and at each resend. */
  ghost function Transmissions(es: seq<C.Event>, i: nat, j: nat, x: Seq16): (ts: seq<int>)
    requires i < j <= |es| && es[i].Added?
    decreases j - i
  {
    if j == i + 1 then [es[i].addTime]
    else Transmissions(es, i, j - 1, x)
         + if C.ResendsIn(C.After(es[..j - 1]), es[j - 1], x) then [es[j - 1].clock(x).send] else []
  }

  /** They are bounded in number, and lie between the first and the last time of sending. */
  lemma {:induction false} TransmissionsBounded(es: seq<C.Event>, i: nat, j: nat, x: Seq16)
    requires C.Monotone(es, x) && C.Lives(es, i, j, x)
    ensures |Transmissions(es, i, j, x)| == 1 + C.ResendCount(es, i, j, x) <= 1 + es[i].call.timeoutResends
    ensures forall t :: t in Transmissions(es, i, j, x) ==> es[i].addTime <= t <= C.LastSent(es, i, j, x)
    decreases j - i
  {
    hide C.Monotone, C.Lives, C.After, C.ResendsIn;
    LivesAdded(es, i, j, x);
    C.LifeCounts(es, i, j, x);
    if j > i + 1 {
      C.LivesBefore(es, i, j, x);
      TransmissionsBounded(es, i, j - 1, x);
      if C.ResendsIn(C.After(es[..j - 1]), es[j - 1], x) {
        ResentAtCheck(es, j - 1, x);
        assert Transmissions(es, i, j - 1, x)[0] in Transmissions(es, i, j - 1, x);
        C.LastSentEarlier(es, i, j - 1, x, j - 1);
        var send := es[j - 1].clock(x).send;
        assert C.LastSent(es, i, j, x) == send;
        assert Transmissions(es, i, j, x) == Transmissions(es, i, j - 1, x) + [send];
        assert es[i].addTime <= C.LastSent(es, i, j - 1, x);
        assert C.LastSent(es, i, j - 1, x) <= es[j - 1].clock(x).look;
        assert es[i].addTime <= send;
      } else {
        assert Transmissions(es, i, j - 1, x) + [] == Transmissions(es, i, j - 1, x);
      }
    }
  }

  lemma LivesAdded(es: seq<C.Event>, i: nat, j: nat, x: Seq16)
    requires C.Lives(es, i, j, x)
    ensures i < j <= |es| && es[i].Added?
  {
  }

  lemma ResentAtCheck(es: seq<C.Event>, k: nat, x: Seq16)
    requires C.Monotone(es, x) && k < |es| && C.ResendsIn(C.After(es[..k]), es[k], x)
    ensures es[k].Checked? && C.ReadingsOf(es[k], x) == Some(es[k].clock(x)) && es[k].clock(x).look <= es[k].clock(x).send
  {
  }

  /** The receiver's messages at the indices in `origin` are copies of the message: each arrives within
      `delay` of the transmission it comes from, on a clock that is off by `skew`. Any number may come
      from one transmission, and none from another. */
  ghost predicate Copies(ts: seq<int>, x: Seq16, ms: seq<D.Message>, origin: map<nat, nat>, skew: int, delay: nat) {
    forall c :: c in origin ==>
      && c < |ms| && ms[c].sn == x && origin[c] < |ts|
      && ts[origin[c]] + skew <= ms[c].time <= ts[origin[c]] + skew + delay
  }

  ghost predicate InTime(ms: seq<D.Message>) {
    forall a, b :: 0 <= a < b < |ms| ==> ms[a].time <= ms[b].time
  }

  /** A reset takes more than 15 seconds after an acceptance. */
  lemma ResetIsLate(ms: seq<D.Message>, a: nat, b: nat, k: nat)
    requires InTime(ms) && a < k <= b < |ms| && D.AcceptedAt(ms, a) && D.ResetAt(ms, k)
    ensures ms[b].time - ms[a].time > D.RESET_SECONDS
  {
    hide D.AcceptedAt, D.ResetAt;
    D.ResetNeedsSilence(ms, a, k);
    var m: nat :| a <= m && D.IsLastAccepted(ms, m, k) && ms[k].time - ms[m].time > D.RESET_SECONDS;
    assert ms[a].time <= ms[m].time && ms[k].time <= ms[b].time;
  }

  /** If the last copy is due within 15 seconds of the first transmission, and the ring still covers the
      number when a later copy comes, which it does for at least 296 acceptances, at most one copy is
      handled, however many the resends and the network make of it. */
  lemma CopiesHandledOnce(es: seq<C.Event>, i: nat, j: nat, x: Seq16,
                          ms: seq<D.Message>, origin: map<nat, nat>, skew: int, delay: nat)
    requires C.Monotone(es, x) && C.Lives(es, i, j, x) && InTime(ms)
    requires Copies(Transmissions(es, i, j, x), x, ms, origin, skew, delay)
    requires C.LastSent(es, i, j, x) - es[i].addTime + delay <= D.RESET_SECONDS
    requires forall a, b :: a in origin && b in origin && a < b ==> D.Kept(D.Depth(ms[..b]), D.AcceptedBetween(ms, a, b))
    ensures forall a, b :: a in origin && b in origin && D.AcceptedAt(ms, a) && D.AcceptedAt(ms, b) ==> a == b
  {
    hide D.AcceptedAt, D.ResetAt, D.Kept, D.Depth, C.Lives, C.Monotone, Transmissions;
    LivesAdded(es, i, j, x);
    TransmissionsBounded(es, i, j, x);
    var ts := Transmissions(es, i, j, x);
    forall a, b | a in origin && b in origin && D.AcceptedAt(ms, a) && D.AcceptedAt(ms, b) ensures a == b {
      var first, last := if a <= b then a else b, if a <= b then b else a;
      if first < last {
        assert ts[origin[first]] in ts && ts[origin[last]] in ts;
        assert ms[last].time - ms[first].time <= D.RESET_SECONDS;
        forall k | first < k <= last ensures !D.ResetAt(ms, k) {
          if D.ResetAt(ms, k) {
            ResetIsLate(ms, first, last, k);
          }
        }
        D.AtMostOnce(ms, first, last);
      }
    }
  }
}
