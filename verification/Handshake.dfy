/**
 * Two nodes over two FIFO channels: nothing but a version or a verack is ever delivered before the handshake of
 * its receiver is complete, in any interleaving, as long as nobody pings before having received a version.
 */
module Handshake {
  import opened Base
  import opened Protocol
  import opened Validation

  datatype End = End(local: Local, link: Link)

  /** `toX` holds what `y` has sent and `x` has not yet handled, oldest first. */
  datatype Net = Net(x: End, y: End, toX: seq<Msg>, toY: seq<Msg>) {
    function Flip(): Net {
      Net(y, x, toY, toX)
    }

    predicate Ready() {
      x.local.Ready() && y.local.Ready()
    }
  }

  // ---------------------------------------------------------------- steps

  /** `x` handles the oldest message sent to it. */
  ghost predicate Deliver(k: Crypto, net: Net, net': Net) {
    && net.Ready() && net.toX != [] && net.x.link.connected
    && exists env :: Delivered(k, env, net, net')
  }

  /** What follows when `x` handles its oldest message. */
  function Handled(k: Crypto, env: Env, net: Net): Net
    requires net.Ready() && net.toX != []
  {
    var out := Receive(k, env, net.x.local, net.x.link, net.toX[0]);
    Net(End(out.local, out.link), net.y, net.toX[1..], net.toY + out.replies)
  }

  ghost predicate Delivered(k: Crypto, env: Env, net: Net, net': Net)
    requires net.Ready() && net.toX != []
  {
    net' == Handled(k, env, net)
  }

  /** `x` sends something of its own accord: a ping at any time, anything else once its handshake is complete. */
  ghost predicate Send(net: Net, net': Net) {
    exists m :: Sent(net, net', m)
  }

  ghost predicate Sent(net: Net, net': Net, m: Msg) {
    && net.x.link.versionSent && !m.IsHandshake() && (m.Ping? || net.x.link.handshakeComplete)
    && net' == net.(toY := net.toY + [m])
  }

  /** Whatever else happens at `x`: mining, other peers, its user. */
  ghost predicate Internal(net: Net, net': Net) {
    net'.x.local.Ready() && net' == net.(x := End(net'.x.local, net.x.link))
  }

  ghost predicate StepX(k: Crypto, net: Net, net': Net) {
    Deliver(k, net, net') || Send(net, net') || Internal(net, net')
  }

  ghost predicate Step(k: Crypto, net: Net, net': Net) {
    StepX(k, net, net') || StepX(k, net.Flip(), net'.Flip())
  }

  /** No step leaves a node without a chain to judge blocks by. */
  lemma {:induction false} StepStaysReady(k: Crypto, net: Net, net': Net)
    requires net.Ready() && Step(k, net, net')
    ensures net'.Ready()
  {
    hide Receive, TipInRange;
    if StepX(k, net, net') {
      StepXStaysReady(k, net, net');
    } else {
      StepXStaysReady(k, net.Flip(), net'.Flip());
    }
  }

  lemma {:induction false} StepXStaysReady(k: Crypto, net: Net, net': Net)
    requires net.Ready() && StepX(k, net, net')
    ensures net'.Ready()
  {
    hide Receive, TipInRange;
    if Deliver(k, net, net') {
      var env :| Delivered(k, env, net, net');
      StaysReady(k, env, net.x.local, net.x.link, net.toX[0]);
    }
  }

  /** `x` has just connected to `y` and sent its version. */
  ghost predicate Connected(net: Net) {
    && net.Ready() && net.toX == [] && net.toY == [Version(net.x.local.Height())]
    && net.x.link == Link(net.x.link.addr, true, true, false, false, -1, 0)
    && net.y.link == Link(net.y.link.addr, true, false, false, false, -1, 0)
  }

  // ---------------------------------------------------------------- order in one direction

  ghost predicate NoHandshake(ms: seq<Msg>) {
    forall i :: 0 <= i < |ms| ==> !ms[i].IsHandshake()
  }

  /** From `s` to `r`: first its version, then its verack once it has received a version itself, then the rest. */
  ghost predicate Ordered(s: Link, r: Link, ch: seq<Msg>) {
    if !s.versionSent then ch == [] && !s.versionReceived && !r.versionReceived && !r.handshakeComplete
    else if !r.versionReceived then ch != [] && ch[0].Version? && !r.handshakeComplete && OrderedRest(s, r, ch[1..])
    else OrderedRest(s, r, ch)
  }

  ghost predicate OrderedRest(s: Link, r: Link, ch: seq<Msg>) {
    if !s.versionReceived then ch == [] && !r.handshakeComplete
    else if !r.handshakeComplete then ch != [] && ch[0].Verack? && NoHandshake(ch[1..])
    else NoHandshake(ch)
  }

  ghost predicate Safe(net: Net) {
    Ordered(net.x.link, net.y.link, net.toY) && Ordered(net.y.link, net.x.link, net.toX)
  }

  /** A ping sent too early: its sender has not received a version yet. */
  ghost predicate EarlyPing(net: Net, net': Net) {
    Send(net, net') && !net.x.link.versionReceived
  }

  lemma {:induction false} Grow(s: Link, s': Link, r: Link, ch: seq<Msg>, more: seq<Msg>)
    requires Ordered(s, r, ch) && s.versionSent && s.versionReceived && NoHandshake(more)
    requires s'.versionSent && s'.versionReceived
    ensures Ordered(s', r, ch + more)
  {
    if ch != [] {
      assert (ch + more)[1..] == ch[1..] + more;
      if |ch| > 1 {
        assert ch[1..] + more != [];
        assert (ch[1..] + more)[1..] == ch[1..][1..] + more;
      }
    }
  }

  /** Receiving a version: the verack goes out, after one's own version. */
  lemma {:induction false} AfterVersion(s: Link, s': Link, r: Link, ch: seq<Msg>, height: int, more: seq<Msg>)
    requires Ordered(s, r, ch) && !s.versionReceived && s'.versionSent && s'.versionReceived && NoHandshake(more)
    ensures Ordered(s', r, ch + ((if s.versionSent then [] else [Version(height)]) + [Verack]) + more)
  {
    var all := ch + ((if s.versionSent then [] else [Version(height)]) + [Verack]) + more;
    if !s.versionSent {
      assert all == [Version(height), Verack] + more;
      assert all[1..] == [Verack] + more && all[1..][1..] == more;
    } else if !r.versionReceived {
      assert ch == [ch[0]];
      assert all == [ch[0], Verack] + more;
      assert all[1..] == [Verack] + more && all[1..][1..] == more;
    } else {
      assert all == [Verack] + more;
      assert all[1..] == more;
    }
  }

  /** A message other than a version or a verack is only ever at the head of a channel whose handshake is over. */
  lemma {:induction false} HeadIsOrdered(s: Link, r: Link, ch: seq<Msg>)
    requires Ordered(s, r, ch) && ch != []
    ensures ch[0].Version? ==> !r.versionReceived && Ordered(s, r.(versionReceived := true), ch[1..])
    ensures ch[0].Verack? ==>
              r.versionReceived && !r.handshakeComplete && Ordered(s, r.(handshakeComplete := true), ch[1..])
    ensures !ch[0].IsHandshake() ==> r.versionReceived && r.handshakeComplete && Ordered(s, r, ch[1..])
  {
  }

  lemma {:induction false} OrderedCares(s: Link, s': Link, r: Link, r': Link, ch: seq<Msg>)
    requires Ordered(s, r, ch) && s'.versionSent == s.versionSent && s'.versionReceived == s.versionReceived
    requires r'.versionReceived == r.versionReceived && r'.handshakeComplete == r.handshakeComplete
    ensures Ordered(s', r', ch)
  {
  }

  lemma {:induction false} DeliverKeeps(k: Crypto, env: Env, net: Net, net': Net)
    requires net.Ready() && net.toX != [] && Safe(net) && Delivered(k, env, net, net')
    ensures Safe(net') && (net.toX[0].IsHandshake() || net.x.link.handshakeComplete)
  {
    hide Ordered, Answer;
    var l, l', m := net.x.link, net'.x.link, net.toX[0];
    HeadIsOrdered(net.y.link, l, net.toX);
    SentBeforeReceived(l, net.y.link, net.toY);
    match m {
      case Version(height) =>
        var n := net.x.local;
        var more := if height > n.Height() && !n.syncing then [GetBlocks(ChainTip(n))] else [];
        AfterVersion(l, l', net.y.link, net.toY, n.Height(), more);
        var answer := (if l.versionSent then [] else [Version(n.Height())]) + [Verack];
        assert net'.toY == net.toY + answer + more by {
          if more == [] {
            assert answer + more == answer && net.toY + answer + [] == net.toY + answer;
          } else {
            assert net.toY + (answer + more) == net.toY + answer + more;
          }
        }
        OrderedCares(net.y.link, net.y.link, l.(versionReceived := true), l', net.toX[1..]);
      case Verack =>
        Grow(l, l', net.y.link, net.toY, [GetAddr]);
        OrderedCares(net.y.link, net.y.link, l.(handshakeComplete := true), l', net.toX[1..]);
      case _ =>
        RepliesAreNoHandshake(k, env, net.x.local, l, m);
        Grow(l, l', net.y.link, net.toY, Answer(k, env, net.x.local, l, m).replies);
        OrderedCares(net.y.link, net.y.link, l, l', net.toX[1..]);
    }
  }

  function ChainTip(n: Local): Bytes
    requires n.Ready()
  {
    n.chain[|n.chain| - 1].hash
  }

  /** Nobody has received a version without having sent its own. */
  lemma {:induction false} SentBeforeReceived(s: Link, r: Link, ch: seq<Msg>)
    requires Ordered(s, r, ch)
    ensures s.versionReceived ==> s.versionSent
  {
  }

  lemma {:induction false} ReceivedBeforeComplete(s: Link, r: Link, ch: seq<Msg>)
    requires Ordered(s, r, ch)
    ensures r.handshakeComplete ==> r.versionReceived
  {
  }

  lemma {:induction false} StepXKeeps(k: Crypto, net: Net, net': Net)
    requires Safe(net) && StepX(k, net, net') && !EarlyPing(net, net')
    ensures Safe(net')
  {
    hide Ordered, Delivered;
    SentBeforeReceived(net.x.link, net.y.link, net.toY);
    if Deliver(k, net, net') {
      var env :| Delivered(k, env, net, net');
      DeliverKeeps(k, env, net, net');
    } else if Send(net, net') {
      var m :| Sent(net, net', m);
      SendKeeps(net, net', m);
    }
  }

  lemma {:induction false} SendKeeps(net: Net, net': Net, m: Msg)
    requires Safe(net) && Sent(net, net', m) && (m.Ping? ==> net.x.link.versionReceived)
    ensures Safe(net')
  {
    ReceivedBeforeComplete(net.y.link, net.x.link, net.toX);
    hide Ordered;
    Grow(net.x.link, net.x.link, net.y.link, net.toY, [m]);
  }

  // ---------------------------------------------------------------- whole runs

  /** A run from a fresh connection, opened from either side. */
  ghost predicate Run(k: Crypto, nets: seq<Net>) {
    && nets != []
    && if |nets| == 1 then Connected(nets[0]) || Connected(nets[0].Flip())
       else Run(k, nets[..|nets| - 1]) && Step(k, nets[|nets| - 2], nets[|nets| - 1])
  }

  ghost predicate Polite(nets: seq<Net>) {
    forall i :: 0 < i < |nets| ==> !EarlyPing(nets[i - 1], nets[i]) && !EarlyPing(nets[i - 1].Flip(), nets[i].Flip())
  }

  /** The message about to be handled by `x` would be punished as sent before the handshake. */
  ghost predicate Premature(net: Net) {
    net.toX != [] && !net.toX[0].IsHandshake() && !net.x.link.handshakeComplete
  }

  lemma {:induction false} RunIsSafe(k: Crypto, nets: seq<Net>)
    requires Run(k, nets) && Polite(nets)
    ensures Safe(nets[|nets| - 1])
  {
    hide Ordered, StepX, EarlyPing;
    var last := |nets| - 1;
    if last == 0 {
      if Connected(nets[0]) {
        ConnectedIsSafe(nets[0]);
      } else {
        ConnectedIsSafe(nets[0].Flip());
      }
    } else {
      var init := nets[..last];
      assert forall i :: 0 <= i < last ==> init[i] == nets[i];
      RunIsSafe(k, init);
      if StepX(k, nets[last - 1], nets[last]) {
        StepXKeeps(k, nets[last - 1], nets[last]);
      } else {
        StepXKeeps(k, nets[last - 1].Flip(), nets[last].Flip());
      }
    }
  }

  lemma {:induction false} ConnectedIsSafe(net: Net)
    requires Connected(net)
    ensures Safe(net)
  {
    assert net.toY[1..] == [];
  }

  /** In no interleaving of a polite run is a message punished for coming before the handshake. */
  lemma {:induction false} HandshakeSafety(k: Crypto, nets: seq<Net>)
    requires Run(k, nets) && Polite(nets)
    ensures !Premature(nets[|nets| - 1]) && !Premature(nets[|nets| - 1].Flip())
  {
    hide Ordered;
    var net := nets[|nets| - 1];
    RunIsSafe(k, nets);
    if net.toX != [] {
      HeadIsOrdered(net.y.link, net.x.link, net.toX);
    }
    if net.toY != [] {
      HeadIsOrdered(net.x.link, net.y.link, net.toY);
    }
  }

  // ---------------------------------------------------------------- an early ping

  /** Something other than a handshake message is ahead of the verack on its way to `y`, whose handshake is open. */
  ghost predicate Doomed(net: Net) {
    && !net.y.link.handshakeComplete
    && exists p :: 0 <= p < |net.toY| && !net.toY[p].IsHandshake() && forall q :: 0 <= q < p ==> !net.toY[q].Verack?
  }

  lemma {:induction false} EarlyPingDooms(net: Net, net': Net)
    requires Safe(net) && EarlyPing(net, net')
    ensures Doomed(net')
  {
    var m :| Sent(net, net', m);
    assert net'.toY[|net.toY|] == m;
    assert forall q :: 0 <= q < |net.toY| ==> net.toY[q].Version?;
  }

  /** Once that has happened, every step keeps it so, until the step in which the ping is punished. */
  lemma {:induction false} DoomedUntilPunished(k: Crypto, net: Net, net': Net)
    requires Doomed(net) && Step(k, net, net')
    ensures Doomed(net') || (Premature(net.Flip()) && net'.y.link == Misbehave(net.y.link, 10))
  {
    var p :| 0 <= p < |net.toY| && !net.toY[p].IsHandshake() && forall q :: 0 <= q < p ==> !net.toY[q].Verack?;
    if StepX(k, net, net') {
      assert net'.toY[p] == net.toY[p];
    } else if p > 0 && Deliver(k, net.Flip(), net'.Flip()) {
      assert net'.toY[p - 1] == net.toY[p];
    } else if !Deliver(k, net.Flip(), net'.Flip()) {
      assert net'.toY == net.toY;
    }
  }

  lemma {:induction false} HandledIsStep(k: Crypto, env: Env, net: Net)
    requires net.Ready() && net.toX != [] && net.x.link.connected
    ensures StepX(k, net, Handled(k, env, net)) && Handled(k, env, net).Ready()
  {
    hide Receive, TipInRange;
    assert Delivered(k, env, net, Handled(k, env, net));
    StaysReady(k, env, net.x.local, net.x.link, net.toX[0]);
  }

  /** On every fresh connection such a run is possible: the ping is sent at once, overtaken by nothing, and punished. */
  lemma {:induction false} EarlyPingRun(k: Crypto, env: Env, net: Net, nonce: nat) returns (nets: seq<Net>)
    requires Connected(net)
    ensures |nets| == 4 && nets[0] == net && Run(k, nets) && EarlyPing(nets[0], nets[1])
    ensures Premature(nets[2].Flip()) && nets[3].y.link == Misbehave(nets[2].y.link, 10)
  {
    hide StepX, Receive, TipInRange;
    var pinged := net.(toY := net.toY + [Ping(nonce)]);
    assert Sent(net, pinged, Ping(nonce));
    assert pinged.toY == [Version(net.x.local.Height()), Ping(nonce)];
    PingIsStep(k, net, pinged);
    HandledIsStep(k, env, pinged.Flip());
    var met := Handled(k, env, pinged.Flip()).Flip();
    FirstHandled(k, env, pinged, nonce);
    HandledIsStep(k, env, met.Flip());
    var last := Handled(k, env, met.Flip()).Flip();
    nets := [net, pinged, met, last];
    assert nets[..3] == [net, pinged, met] && nets[..3][..2] == [net, pinged] && nets[..3][..2][..1] == [net];
    assert Run(k, [net]) && Run(k, [net, pinged]) && Run(k, [net, pinged, met]);
  }

  lemma {:induction false} PingIsStep(k: Crypto, net: Net, net': Net)
    requires Send(net, net')
    ensures StepX(k, net, net')
  {
  }

  lemma {:induction false} FirstHandled(k: Crypto, env: Env, net: Net, nonce: nat)
    requires net.Ready() && |net.toY| == 2 && net.toY[0].Version? && net.toY[1] == Ping(nonce)
    requires net.y.link.connected && !net.y.link.handshakeComplete
    ensures var met := Handled(k, env, net.Flip());
            && met.Ready() && met.toX == [Ping(nonce)] && met.x.link.connected && !met.x.link.handshakeComplete
            && Handled(k, env, met).x.link == Misbehave(met.x.link, 10)
  {
    hide TipInRange;
    StaysReady(k, env, net.y.local, net.y.link, net.toY[0]);
  }
}
