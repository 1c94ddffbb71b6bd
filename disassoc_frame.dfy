/** The session and peer records the management entity owns, and the handler that
    processes one received Disassociation frame by updating them in place. */
module DisassocFrame {
  import opened MacTypes
  import opened DisassocGates
  import opened DisassocSpec

  /** A PE session: role, connection and MLME state, and the fields the handler updates. */
  class Session {
    var role: Role
    var smeState: SmeState
    var mlmState: MlmState
    var prevMlmState: MlmState
    var disassocmsgcnt: nat
    var rmfEnabled: bool
    var channelSwitchState: ChannelSwitchState
    var assocResponseData: Option<seq<uint8>>
    var peSessionId: uint8
    var smeSessionId: uint8

    constructor (v: SessionView)
      ensures View() == v
    {
      role, smeState, mlmState, prevMlmState := v.role, v.smeState, v.mlmState, v.prevMlmState;
      disassocmsgcnt, rmfEnabled, channelSwitchState := v.disassocmsgcnt, v.rmfEnabled, v.channelSwitchState;
      assocResponseData, peSessionId, smeSessionId := v.assocResponseData, v.peSessionId, v.smeSessionId;
    }

    /** Counts a Disassociation frame ignored during teardown; the log line is produced
        only when the count before the increment is a multiple of 16. */
    method CountSuppressedFrame() returns (log: seq<Action>)
      modifies this
      ensures View() == old(View()).(disassocmsgcnt := old(disassocmsgcnt) + 1)
      ensures log == SuppressionLog(old(disassocmsgcnt))
    {
      if disassocmsgcnt % 16 == 0 {
        disassocmsgcnt := disassocmsgcnt + 1;
        log := [ThrottledLog(disassocmsgcnt)];
      } else {
        disassocmsgcnt := disassocmsgcnt + 1;
        log := [];
      }
    }

    /** Re-arms the suppression log once a frame has been processed. */
    method ResetDisassocMsgCount()
      modifies this
      ensures View() == old(View()).(disassocmsgcnt := 0)
    {
      if disassocmsgcnt != 0 {
        disassocmsgcnt := 0;
      }
    }

    /** Releases the buffered reassociation response, if any. */
    method ReleaseAssocResponse()
      modifies this
      ensures View() == old(View()).(assocResponseData := None)
    {
      if assocResponseData.Some? {
        assocResponseData := None;
      }
    }

    function View(): SessionView
      reads this
    {
      SessionView(role, smeState, mlmState, prevMlmState, disassocmsgcnt, rmfEnabled,
                  channelSwitchState, assocResponseData, peSessionId, smeSessionId)
    }
  }

  /** A peer association record, as found in the session's association table. */
  class PeerContext {
    var staAddr: MacAddr
    var mlmState: MlmState
    var cleanupTrigger: CleanupTrigger
    var disassocReason: uint16
    var updateContext: bool

    constructor (v: PeerView)
      ensures View() == v
    {
      staAddr, mlmState, cleanupTrigger := v.staAddr, v.mlmState, v.cleanupTrigger;
      disassocReason, updateContext := v.disassocReason, v.updateContext;
    }

    /** Records that the peer disassociated with `reason`; a peer that was waiting for its
        association confirmation is told its context changed. */
    method MarkDisassociated(reason: uint16)
      modifies this
      ensures View() == MarkPeerDisassoc(old(View()), reason)
    {
      if mlmState != LinkEstablished {
        if mlmState == WaitAssocCnf {
          updateContext := true;
        }
      }
      cleanupTrigger := PeerEntityDisassoc;
      disassocReason := reason;
    }

    function View(): PeerView
      reads this
    {
      PeerView(staAddr, mlmState, cleanupTrigger, disassocReason, updateContext)
    }
  }

  /** The peer record the association-table lookup found, if any. */
  function PeerOf(peer: PeerContext?): Option<PeerView>
    reads peer
  {
    if peer == null then None else Some(peer.View())
  }

  /** Processes one received Disassociation frame. `peer` is the record the association
      table holds for the frame's source address (null when there is none). */
  method ProcessDisassocFrame(session: Session, peer: PeerContext?, f: RxFrame, c: Collaborators, b: Build)
    returns (actions: seq<Action>)
    modifies session, peer
    ensures var r := Receive(old(session.View()), old(PeerOf(peer)), f, c, b);
            session.View() == r.session && PeerOf(peer) == r.peer && actions == r.actions
  {
    ghost var s0, p0 := session.View(), PeerOf(peer);
    if AddressRejected(c) {
      assert Classify(s0, p0, f, c, b) == RejectAddress;
      assert Receive(s0, p0, f, c, b) == Step(s0, p0, []);
      return [];
    }

    if TeardownInProgress(session.role, session.smeState) {
      actions := session.CountSuppressedFrame();
      assert Classify(s0, p0, f, c, b) == SuppressDuringTeardown;
      return;
    }

    if f.payloadLen < ReasonCodeLen {
      assert Classify(s0, p0, f, c, b) == RejectShort;
      assert Receive(s0, p0, f, c, b) == Step(s0, p0, []);
      return [];
    }
    var reasonCode := f.reasonCode;

    if NeedsUnprotectedInd(b, session.rmfEnabled, f.unprotected, session.mlmState, session.prevMlmState) {
      assert Classify(s0, p0, f, c, b) == EscalateUnprotected;
      return [UnprotectedMgmtFrameInd(f.subType, f.payloadLen + MgmtHeaderLen, session.smeSessionId)];
    }

    if peer == null {
      assert Classify(s0, p0, f, c, b) == RejectNoPeer;
      assert Receive(s0, p0, f, c, b) == Step(s0, p0, []);
      return [];
    }

    if c.ackPending {
      assert Classify(s0, p0, f, c, b) == RejectAckPending;
      return [CleanUpDisassocDeauthReq(f.sa)];
    }

    if c.reassocInProgress {
      if !c.saIsReassocBssid {
        assert Classify(s0, p0, f, c, b) == RejectUnknownAp;
        assert Receive(s0, p0, f, c, b) == Step(s0, p0, []);
        return [];
      }
      if !c.saIsCurrentBssid {
        assert Classify(s0, p0, f, c, b) == AbortReassoc;
        return [RestoreRefused(reasonCode)];
      }
    }

    var policy := ReasonPolicy(session.role, session.smeState, reasonCode, session.channelSwitchState);
    if !policy.Proceed? {
      assert Classify(s0, p0, f, c, b) in {RejectChannelSwitch, RejectRoleState};
      assert Receive(s0, p0, f, c, b) == Step(s0, p0, []);
      return [];
    }

    if PeerDeletePending(peer.mlmState) {
      assert Classify(s0, p0, f, c, b) == RejectPeerDeleting;
      assert Receive(s0, p0, f, c, b) == Step(s0, p0, []);
      return [];
    }

    actions := [];
    if TdlsTeardownApplies(b, session.role, peer.mlmState, c.saIsCurrentBssid) {
      actions := [DeleteTdlsPeers];
    }

    peer.MarkDisassociated(reasonCode);

    var ind := MlmDisassocInd(peer.staAddr, peer.disassocReason % 0x100, PeerEntityDisassoc, session.peSessionId);

    session.ResetDisassocMsgCount();

    if c.reassocInProgress {
      session.ReleaseAssocResponse();
      actions := actions + [RestoreRefused(reasonCode)];
      assert Classify(s0, p0, f, c, b) == AcceptRestoreReassoc;
      return;
    }

    actions := actions + [UpdateLostLinkInfo(f.rssi), PostMlmDisassocInd(ind), SendSmeDisassocInd(peer.staAddr)];
    assert Classify(s0, p0, f, c, b) == AcceptIndicate;
  }
}
