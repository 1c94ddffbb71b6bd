/** The whole receive path for one Disassociation frame as a function of the session and
    peer-record state before the call: the branch chosen by the gate pipeline, the new
    session and peer state, and the outbound actions in the order they happen. */
module DisassocSpec {
  import opened MacTypes
  import opened DisassocGates

  /** Session state, peer state and the actions after one frame. */
  datatype Step = Step(session: SessionView, peer: Option<PeerView>, actions: seq<Action>)

  /** The one operation both reassociation-abort sites use. */
  function RestoreRefused(reason: uint16): (a: Action)
  {
    RestorePreReassocState(SmeReassocRefused, reason)
  }

  /** The peer record after an accepted frame: torn down by the peer, with its reason; a
      peer still waiting for its association confirmation is told the context changed. */
  function MarkPeerDisassoc(q: PeerView, reason: uint16): (q': PeerView)
    ensures q'.staAddr == q.staAddr && q'.mlmState == q.mlmState
    ensures q'.cleanupTrigger == PeerEntityDisassoc && q'.disassocReason == reason
    ensures q'.updateContext == (q.updateContext || q.mlmState == WaitAssocCnf)
  {
    var q1 := if q.mlmState != LinkEstablished && q.mlmState == WaitAssocCnf
              then q.(updateContext := true) else q;
    q1.(cleanupTrigger := PeerEntityDisassoc, disassocReason := reason)
  }

  /** The indication built for the MLME queue; the reason code is narrowed to one octet. */
  function DisassocIndication(q: PeerView, s: SessionView): (ind: MlmDisassocInd)
  {
    MlmDisassocInd(q.staAddr, q.disassocReason % 0x100, PeerEntityDisassoc, s.peSessionId)
  }

  /** The throttled log of a suppressed frame: one line when the old count is a multiple
      of 16, carrying the incremented count. */
  function SuppressionLog(count: nat): (log: seq<Action>)
  {
    if count % 16 == 0 then [ThrottledLog(count + 1)] else []
  }

  /** Processing one received Disassociation frame. */
  function Receive(s: SessionView, p: Option<PeerView>, f: RxFrame, c: Collaborators, b: Build): (r: Step)
    // Only the suppression counter and the buffered reassociation response of the session
    // can change, and the buffer can only be released.
    ensures r.session == s.(disassocmsgcnt := r.session.disassocmsgcnt,
                            assocResponseData := r.session.assocResponseData)
    ensures r.session.assocResponseData == s.assocResponseData || r.session.assocResponseData.None?
    // The peer record is changed only on the accepted path, and then only in its
    // cleanup trigger, stored reason and update-context flag.
    ensures r.peer.Some? <==> p.Some?
    ensures r.peer != p ==> Classify(s, p, f, c, b).Accepted()
    ensures r.peer != p ==> r.peer.value == p.value.(cleanupTrigger := r.peer.value.cleanupTrigger,
                                                      disassocReason := r.peer.value.disassocReason,
                                                      updateContext := r.peer.value.updateContext)
    // The counter moves only when a frame is suppressed or accepted.
    ensures r.session.disassocmsgcnt != s.disassocmsgcnt ==>
              Classify(s, p, f, c, b) == SuppressDuringTeardown || Classify(s, p, f, c, b).Accepted()
    // Nothing is posted upward unless the frame was accepted.
    ensures (exists i :: 0 <= i < |r.actions| && r.actions[i].PostMlmDisassocInd?) ==>
              Classify(s, p, f, c, b) == AcceptIndicate
  {
    match Classify(s, p, f, c, b)
    case SuppressDuringTeardown =>
      Step(s.(disassocmsgcnt := s.disassocmsgcnt + 1), p, SuppressionLog(s.disassocmsgcnt))
    case EscalateUnprotected =>
      Step(s, p, [UnprotectedMgmtFrameInd(f.subType, f.payloadLen + MgmtHeaderLen, s.smeSessionId)])
    case RejectAckPending =>
      Step(s, p, [CleanUpDisassocDeauthReq(f.sa)])
    case AbortReassoc =>
      Step(s, p, [RestoreRefused(f.reasonCode)])
    case AcceptRestoreReassoc =>
      var q := p.value;
      var tdls := if TdlsTeardownApplies(b, s.role, q.mlmState, c.saIsCurrentBssid) then [DeleteTdlsPeers] else [];
      Step(s.(disassocmsgcnt := 0, assocResponseData := None), Some(MarkPeerDisassoc(q, f.reasonCode)),
           tdls + [RestoreRefused(f.reasonCode)])
    case AcceptIndicate =>
      var q := p.value;
      var q' := MarkPeerDisassoc(q, f.reasonCode);
      var tdls := if TdlsTeardownApplies(b, s.role, q.mlmState, c.saIsCurrentBssid) then [DeleteTdlsPeers] else [];
      Step(s.(disassocmsgcnt := 0), Some(q'),
           tdls + [UpdateLostLinkInfo(f.rssi), PostMlmDisassocInd(DisassocIndication(q', s)), SendSmeDisassocInd(q'.staAddr)])
    case _ =>
      Step(s, p, [])
  }
}
