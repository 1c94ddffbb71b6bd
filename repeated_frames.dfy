/** Disassociation frames delivered one after another on the management entity's message
    queue. While a station is already tearing its link down, repeated frames are absorbed:
    they only count, and the count is logged once every 16 frames. */
module RepeatedFrames {
  import opened MacTypes
  import opened DisassocGates
  import opened DisassocSpec

  /** One received frame together with what the collaborators answer for it. */
  datatype Delivery = Delivery(frame: RxFrame, env: Collaborators)

  /** The handler run on each delivery in turn, the state threaded through. */
  function ReceiveAll(s: SessionView, p: Option<PeerView>, ds: seq<Delivery>, b: Build): (r: Step)
    decreases |ds|
  {
    if ds == [] then Step(s, p, [])
    else
      var r := Receive(s, p, ds[0].frame, ds[0].env, b);
      var rest := ReceiveAll(r.session, r.peer, ds[1..], b);
      Step(rest.session, rest.peer, r.actions + rest.actions)
  }

  /** How many deliveries pass the address checks. */
  function AddressedCount(ds: seq<Delivery>): (n: nat)
  {
    if ds == [] then 0 else (if AddressRejected(ds[0].env) then 0 else 1) + AddressedCount(ds[1..])
  }

  /** `n` copies of the same delivery. */
  function Repeat(d: Delivery, n: nat): (ds: seq<Delivery>)
  {
    if n == 0 then [] else [d] + Repeat(d, n - 1)
  }

  /** The log lines of `n` suppressed frames when the counter starts at `count`. */
  function ThrottledLogs(count: nat, n: nat): (logs: seq<Action>)
    decreases n
  {
    if n == 0 then [] else SuppressionLog(count) + ThrottledLogs(count + 1, n - 1)
  }

  /** Any sequence of frames received while a station tears down changes nothing but the
      counter, which grows by the number of frames that passed the address checks, and
      produces no action other than throttled log lines: nothing is indicated upward. */
  lemma {:induction false} TeardownAbsorbsFrames(s: SessionView, p: Option<PeerView>, ds: seq<Delivery>, b: Build)
    requires s.role == StaRole && (s.smeState == WaitDisassoc || s.smeState == WaitDeauth)
    ensures var r := ReceiveAll(s, p, ds, b);
            && r.session == s.(disassocmsgcnt := s.disassocmsgcnt + AddressedCount(ds))
            && r.peer == p
            && forall i :: 0 <= i < |r.actions| ==> r.actions[i].ThrottledLog?
    decreases |ds|
  {
    if ds != [] {
      var r := Receive(s, p, ds[0].frame, ds[0].env, b);
      assert r.session == s.(disassocmsgcnt := s.disassocmsgcnt + (if AddressRejected(ds[0].env) then 0 else 1));
      assert r.peer == p;
      assert forall i :: 0 <= i < |r.actions| ==> r.actions[i].ThrottledLog?;
      TeardownAbsorbsFrames(r.session, r.peer, ds[1..], b);
    }
  }

  /** `n` copies of one well-addressed frame during teardown raise the counter by exactly
      `n` and log exactly the lines `ThrottledLogs` describes. */
  lemma {:induction false} RepeatedFrameLogs(s: SessionView, p: Option<PeerView>, d: Delivery, n: nat, b: Build)
    requires s.role == StaRole && (s.smeState == WaitDisassoc || s.smeState == WaitDeauth)
    requires !AddressRejected(d.env)
    ensures ReceiveAll(s, p, Repeat(d, n), b) ==
              Step(s.(disassocmsgcnt := s.disassocmsgcnt + n), p, ThrottledLogs(s.disassocmsgcnt, n))
    decreases n
  {
    if n > 0 {
      assert Repeat(d, n)[0] == d && Repeat(d, n)[1..] == Repeat(d, n - 1);
      var s1 := s.(disassocmsgcnt := s.disassocmsgcnt + 1);
      assert Receive(s, p, d.frame, d.env, b) == Step(s1, p, SuppressionLog(s.disassocmsgcnt));
      RepeatedFrameLogs(s1, p, d, n - 1, b);
    }
  }

  /** Starting from `count`, `n` suppressed frames log once per multiple of 16 in
      [count, count + n): each line carries a count one past a multiple of 16, so there are
      never more than n / 16 + 1 of them. */
  lemma {:induction false} ThrottledLogsCount(count: nat, n: nat)
    ensures var logs := ThrottledLogs(count, n);
            && |logs| == (count + n + 15) / 16 - (count + 15) / 16
            && |logs| <= n / 16 + 1
            && forall i :: 0 <= i < |logs| ==>
                 logs[i].ThrottledLog? && logs[i].count % 16 == 1 && count < logs[i].count <= count + n
    decreases n
  {
    if n > 0 {
      ThrottledLogsCount(count + 1, n - 1);
      var head: seq<Action> := SuppressionLog(count);
      var rest: seq<Action> := ThrottledLogs(count + 1, n - 1);
      assert |head| == (count + 16) / 16 - (count + 15) / 16;
      assert ThrottledLogs(count, n) == head + rest;
      forall i | 0 <= i < |head + rest|
        ensures (head + rest)[i].ThrottledLog? && (head + rest)[i].count % 16 == 1
        ensures count < (head + rest)[i].count <= count + n
      {
        if i >= |head| {
          assert (head + rest)[i] == rest[i - |head|];
        }
      }
    }
  }
}
