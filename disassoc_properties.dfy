/** What the Disassociation receive path guarantees, one lemma per gate and per outcome,
    stated on the specification the handler is proved against. */
module DisassocProperties {
  import opened MacTypes
  import opened DisassocGates
  import opened DisassocSpec

  /** The number of actions of a given kind. */
  function CountPosts(acts: seq<Action>): (n: nat)
  {
    if acts == [] then 0 else (if acts[0].PostMlmDisassocInd? then 1 else 0) + CountPosts(acts[1..])
  }

  function CountSmeInds(acts: seq<Action>): (n: nat)
  {
    if acts == [] then 0 else (if acts[0].SendSmeDisassocInd? then 1 else 0) + CountSmeInds(acts[1..])
  }

  /** A frame from a group source, or to a multicast destination other than broadcast, or
      failing the A1 check, changes nothing and emits nothing. */
  lemma AddressRejectionIsInert(s: SessionView, p: Option<PeerView>, f: RxFrame, c: Collaborators, b: Build)
    requires c.saIsGroup || (c.daIsGroup && !c.daIsBroadcast) || !c.a1Valid
    ensures Receive(s, p, f, c, b) == Step(s, p, [])
  {
  }

  /** A station already tearing down counts the frame and does nothing else; the log line
      appears exactly when the old count is a multiple of 16. This holds whatever the
      frame's length. */
  lemma TeardownSuppression(s: SessionView, p: Option<PeerView>, f: RxFrame, c: Collaborators, b: Build)
    requires !AddressRejected(c)
    requires s.role == StaRole && (s.smeState == WaitDisassoc || s.smeState == WaitDeauth)
    ensures var r := Receive(s, p, f, c, b);
            && r.session == s.(disassocmsgcnt := s.disassocmsgcnt + 1)
            && r.peer == p
            && (s.disassocmsgcnt % 16 == 0 ==> r.actions == [ThrottledLog(s.disassocmsgcnt + 1)])
            && (s.disassocmsgcnt % 16 != 0 ==> r.actions == [])
  {
  }

  /** A frame too short to hold a reason code is dropped with no effect, and its
      (unread) reason code cannot influence anything. */
  lemma ShortFrameIsInert(s: SessionView, p: Option<PeerView>, f: RxFrame, c: Collaborators, b: Build, other: uint16)
    requires !AddressRejected(c) && !TeardownInProgress(s.role, s.smeState)
    requires f.payloadLen < 2
    ensures Receive(s, p, f, c, b) == Step(s, p, [])
    ensures Receive(s, p, f, c, b) == Receive(s, p, f.(reasonCode := other), c, b)
  {
  }

  /** On a protected session an unprotected frame is only reported for an SA Query:
      exactly one unprotected-frame indication, no state change. */
  lemma UnprotectedFrameEscalates(s: SessionView, p: Option<PeerView>, f: RxFrame, c: Collaborators, b: Build)
    requires !AddressRejected(c) && !TeardownInProgress(s.role, s.smeState) && f.payloadLen >= 2
    requires b.pmf && s.rmfEnabled && f.unprotected
    requires !(s.mlmState == LinkEstablished && s.prevMlmState == Joined)
    ensures Receive(s, p, f, c, b) ==
              Step(s, p, [UnprotectedMgmtFrameInd(f.subType, f.payloadLen + 24, s.smeSessionId)])
  {
  }

  /** Just after a join the unprotected frame is handled exactly as if it were protected. */
  lemma PostJoinUnprotectedFrameContinues(s: SessionView, p: Option<PeerView>, f: RxFrame, c: Collaborators, b: Build)
    requires s.mlmState == LinkEstablished && s.prevMlmState == Joined
    ensures Receive(s, p, f, c, b) == Receive(s, p, f.(unprotected := false), c, b)
  {
  }

  /** A frame whose source has no association context is dropped with no effect. */
  lemma NoPeerIsInert(s: SessionView, f: RxFrame, c: Collaborators, b: Build)
    requires !TeardownInProgress(s.role, s.smeState)
    requires !NeedsUnprotectedInd(b, s.rmfEnabled, f.unprotected, s.mlmState, s.prevMlmState)
    ensures Receive(s, None, f, c, b) == Step(s, None, [])
  {
  }

  /** While our own disassoc/deauth to the source awaits its ack, the pending request is
      cleaned up and the frame dropped, with no peer change. */
  lemma AckPendingCleansUp(s: SessionView, q: PeerView, f: RxFrame, c: Collaborators, b: Build)
    requires !AddressRejected(c) && !TeardownInProgress(s.role, s.smeState) && f.payloadLen >= 2
    requires !NeedsUnprotectedInd(b, s.rmfEnabled, f.unprotected, s.mlmState, s.prevMlmState)
    requires c.ackPending
    ensures Receive(s, Some(q), f, c, b) == Step(s, Some(q), [CleanUpDisassocDeauthReq(f.sa)])
  {
  }

  /** During a reassociation a frame from a source that is not the reassociation target
      is dropped, and one from the target that is not the current AP aborts the
      reassociation with "refused" and the frame's reason code, and nothing else. */
  lemma ReassocGate(s: SessionView, q: PeerView, f: RxFrame, c: Collaborators, b: Build)
    requires !AddressRejected(c) && !TeardownInProgress(s.role, s.smeState) && f.payloadLen >= 2
    requires !NeedsUnprotectedInd(b, s.rmfEnabled, f.unprotected, s.mlmState, s.prevMlmState)
    requires !c.ackPending && c.reassocInProgress
    ensures !c.saIsReassocBssid ==> Receive(s, Some(q), f, c, b) == Step(s, Some(q), [])
    ensures c.saIsReassocBssid && !c.saIsCurrentBssid ==>
              Receive(s, Some(q), f, c, b) ==
              Step(s, Some(q), [RestorePreReassocState(SmeReassocRefused, f.reasonCode)])
  {
  }

  /** Everything before the role policy passed: the role policy alone decides whether the
      frame is dropped. An AP never drops on the reason code; a connected station drops
      only a leaving-BSS code while a channel switch is pending; any other role or state
      drops every frame. A drop changes nothing. */
  lemma RolePolicy(s: SessionView, q: PeerView, f: RxFrame, c: Collaborators, b: Build)
    requires !AddressRejected(c) && !TeardownInProgress(s.role, s.smeState) && f.payloadLen >= 2
    requires !NeedsUnprotectedInd(b, s.rmfEnabled, f.unprotected, s.mlmState, s.prevMlmState)
    requires !c.ackPending && (c.reassocInProgress ==> c.saIsReassocBssid && c.saIsCurrentBssid)
    requires !PeerDeletePending(q.mlmState)
    ensures var r := Receive(s, Some(q), f, c, b);
            var dropped := r == Step(s, Some(q), []);
            && ((s.role == ApRole || s.role == BtAmpApRole) ==> !dropped)
            && ((s.role == StaRole || s.role == BtAmpStaRole) && !Establishing(s.smeState) ==>
                  (dropped <==> (f.reasonCode in {3, 8} && s.channelSwitchState != SwitchIdle)))
            && (s.role in {UnknownRole, StaInIbssRole, P2pDeviceRole} ==> dropped)
            && ((s.role == StaRole || s.role == BtAmpStaRole) && Establishing(s.smeState) ==> dropped)
  {
  }

  /** A peer whose context is already being deleted is left alone, whichever gate the
      frame ends on; and once every earlier gate has passed, the frame is dropped right
      there: no action at all, and the counter is not reset. */
  lemma DeletePendingPeerIsInert(s: SessionView, q: PeerView, f: RxFrame, c: Collaborators, b: Build)
    requires PeerDeletePending(q.mlmState)
    ensures var r := Receive(s, Some(q), f, c, b);
            r.peer == Some(q) && r.session.assocResponseData == s.assocResponseData
            && (forall i :: 0 <= i < |r.actions| ==> !r.actions[i].PostMlmDisassocInd?)
    ensures && !AddressRejected(c) && !TeardownInProgress(s.role, s.smeState) && f.payloadLen >= 2
            && !NeedsUnprotectedInd(b, s.rmfEnabled, f.unprotected, s.mlmState, s.prevMlmState)
            && !c.ackPending && (c.reassocInProgress ==> c.saIsReassocBssid && c.saIsCurrentBssid)
            && ReasonPolicy(s.role, s.smeState, f.reasonCode, s.channelSwitchState).Proceed?
            ==> Receive(s, Some(q), f, c, b) == Step(s, Some(q), [])
  {
  }

  /** On the accepted path the peer is marked as torn down by the peer with the frame's
      reason (its update-context flag raised exactly when it was waiting for an
      association confirmation), the suppression counter is re-armed, and the actions are
      exactly: the direct-link teardown when it applies, the lost-link update, one MLME
      indication carrying the low octet of the reason code, and one SME indication. */
  lemma AcceptedFrameIndicates(s: SessionView, q: PeerView, f: RxFrame, c: Collaborators, b: Build)
    requires Classify(s, Some(q), f, c, b) == AcceptIndicate
    ensures var r := Receive(s, Some(q), f, c, b);
            var tdls := if TdlsTeardownApplies(b, s.role, q.mlmState, c.saIsCurrentBssid) then [DeleteTdlsPeers] else [];
            && r.session == s.(disassocmsgcnt := 0)
            && r.peer == Some(q.(cleanupTrigger := PeerEntityDisassoc, disassocReason := f.reasonCode,
                                 updateContext := q.updateContext || q.mlmState == WaitAssocCnf))
            && r.actions == tdls + [UpdateLostLinkInfo(f.rssi),
                                    PostMlmDisassocInd(MlmDisassocInd(q.staAddr, f.reasonCode % 256, PeerEntityDisassoc, s.peSessionId)),
                                    SendSmeDisassocInd(q.staAddr)]
            && CountPosts(r.actions) == 1 && CountSmeInds(r.actions) == 1
  {
    var q' := MarkPeerDisassoc(q, f.reasonCode);
    var post, sme := PostMlmDisassocInd(DisassocIndication(q', s)), SendSmeDisassocInd(q'.staAddr);
    var tail := [UpdateLostLinkInfo(f.rssi), post, sme];
    var tdls := if TdlsTeardownApplies(b, s.role, q.mlmState, c.saIsCurrentBssid) then [DeleteTdlsPeers] else [];
    assert Receive(s, Some(q), f, c, b) == Step(s.(disassocmsgcnt := 0), Some(q'), tdls + tail);
    assert tail == [UpdateLostLinkInfo(f.rssi)] + ([post] + [sme]);
    CountsOfConcat([post], [sme]);
    CountsOfConcat([UpdateLostLinkInfo(f.rssi)], [post] + [sme]);
    CountsOfConcat(tdls, tail);
  }

  /** When the reassociation is still in progress at the end, the peer is marked as on the
      indicating path, the buffered response is released and the reassociation is aborted
      instead of indicating upward: the actions are exactly the direct-link teardown when it
      applies and the restore. */
  lemma AcceptedDuringReassocRestores(s: SessionView, q: PeerView, f: RxFrame, c: Collaborators, b: Build)
    requires Classify(s, Some(q), f, c, b) == AcceptRestoreReassoc
    ensures var r := Receive(s, Some(q), f, c, b);
            var tdls := if TdlsTeardownApplies(b, s.role, q.mlmState, c.saIsCurrentBssid) then [DeleteTdlsPeers] else [];
            && r.session == s.(disassocmsgcnt := 0, assocResponseData := None)
            && r.peer == Some(q.(cleanupTrigger := PeerEntityDisassoc, disassocReason := f.reasonCode,
                                 updateContext := q.updateContext || q.mlmState == WaitAssocCnf))
            && r.actions == tdls + [RestorePreReassocState(SmeReassocRefused, f.reasonCode)]
            && CountPosts(r.actions) == 0 && CountSmeInds(r.actions) == 0
  {
    var tdls := if TdlsTeardownApplies(b, s.role, q.mlmState, c.saIsCurrentBssid) then [DeleteTdlsPeers] else [];
    assert Receive(s, Some(q), f, c, b) ==
           Step(s.(disassocmsgcnt := 0, assocResponseData := None), Some(MarkPeerDisassoc(q, f.reasonCode)),
                tdls + [RestoreRefused(f.reasonCode)]);
    CountsOfConcat(tdls, [RestoreRefused(f.reasonCode)]);
  }

  /** An AP whose associated peer leaves the BSS tears the peer down and indicates it:
      the accepted path is reachable. */
  lemma ApPeerLeavingBssIsIndicated(sa: MacAddr, da: MacAddr)
    ensures var s := SessionView(ApRole, SmeNormal, BssStarted, BssStarted, 5, false, SwitchIdle, None, 1, 2);
            var q := PeerView(sa, LinkEstablished, HostDisassoc, 0, false);
            var f := RxFrame(10, da, sa, 2, DisassocLeavingBssReason, false, -40);
            var c := Collaborators(false, false, false, true, false, false, false, false);
            Receive(s, Some(q), f, c, Build(true, true)) ==
              Step(s.(disassocmsgcnt := 0), Some(q.(cleanupTrigger := PeerEntityDisassoc, disassocReason := 8)),
                   [UpdateLostLinkInfo(-40),
                    PostMlmDisassocInd(MlmDisassocInd(sa, 8, PeerEntityDisassoc, 1)),
                    SendSmeDisassocInd(sa)])
  {
  }

  lemma {:induction false} CountsOfConcat(a: seq<Action>, a': seq<Action>)
    ensures CountPosts(a + a') == CountPosts(a) + CountPosts(a')
    ensures CountSmeInds(a + a') == CountSmeInds(a) + CountSmeInds(a')
  {
    if a == [] {
      assert a + a' == a';
    } else {
      assert (a + a')[0] == a[0];
      assert (a + a')[1..] == a[1..] + a';
      CountsOfConcat(a[1..], a');
    }
  }
}
