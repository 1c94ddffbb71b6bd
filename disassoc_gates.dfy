/** The early-return gates of the Disassociation receive path as pure decisions, and the
    pipeline that composes them into the branch a frame ends on. */
module DisassocGates {
  import opened MacTypes

  /** A Disassociation frame must come from a unicast source and be addressed to this
      station or to the broadcast address. */
  predicate AddressRejected(c: Collaborators)
  {
    c.saIsGroup || (c.daIsGroup && !c.daIsBroadcast) || !c.a1Valid
  }

  /** A station that is already tearing its link down ignores further Disassociation frames. */
  predicate TeardownInProgress(role: Role, sme: SmeState)
  {
    role == StaRole && (sme == WaitDisassoc || sme == WaitDeauth)
  }

  /** On a session with management-frame protection, an unprotected frame is reported
      upward for an SA Query (section 11.13 of IEEE 802.11-2016) instead of being acted on,
      except just after a join (MLME state LinkEstablished entered from Joined). */
  predicate NeedsUnprotectedInd(b: Build, rmfEnabled: bool, unprotected: bool, mlm: MlmState, prevMlm: MlmState)
  {
    b.pmf && rmfEnabled && unprotected && !(mlm == LinkEstablished && prevMlm == Joined)
  }

  predicate IsApRole(role: Role)
  {
    role == ApRole || role == BtAmpApRole
  }

  predicate IsStaRole(role: Role)
  {
    role == StaRole || role == BtAmpStaRole
  }

  /** SME states in which the station is still establishing its connection. */
  predicate Establishing(sme: SmeState)
  {
    sme == WaitJoin || sme == WaitAuth || sme == WaitAssoc || sme == WaitReassoc
  }

  /** The two "leaving the BSS" codes, which a station accepts only when no channel
      switch is pending. */
  predicate IsLeavingBssReason(reason: uint16)
  {
    reason == DeauthLeavingBssReason || reason == DisassocLeavingBssReason
  }

  /** What the role and reason-code policy decides. Which codes a role lists as expected
      only selects a log line, so it is not recorded. */
  datatype PolicyVerdict = Proceed | IgnoreForChannelSwitch | IgnoreForRole

  /** The role/reason-code switch: an AP accepts every code, a connected station accepts
      every code except a leaving-BSS code while a channel switch is pending, and every
      other role or state refuses the frame. */
  function ReasonPolicy(role: Role, sme: SmeState, reason: uint16, chsw: ChannelSwitchState): (v: PolicyVerdict)
    ensures (role == ApRole || role == BtAmpApRole) ==> v.Proceed?
    ensures (role == StaRole || role == BtAmpStaRole) && !Establishing(sme) ==>
              (v.Proceed? <==> !(IsLeavingBssReason(reason) && chsw != SwitchIdle)) && !v.IgnoreForRole?
    ensures v.IgnoreForChannelSwitch? ==> reason in {DeauthLeavingBssReason, DisassocLeavingBssReason} && chsw != SwitchIdle
    ensures v == IgnoreForRole <==>
              role !in {ApRole, BtAmpApRole} && (role !in {StaRole, BtAmpStaRole} || Establishing(sme))
  {
    if IsApRole(role) then
      Proceed
    else if IsStaRole(role) && !Establishing(sme) then
      if IsLeavingBssReason(reason) then
        if chsw != SwitchIdle then IgnoreForChannelSwitch else Proceed
      else
        Proceed
    else
      IgnoreForRole
  }

  /** A peer whose context is already being deleted is not torn down a second time. */
  predicate PeerDeletePending(mlm: MlmState)
  {
    mlm == WaitDelStaRsp || mlm == WaitDelBssRsp
  }

  /** Direct-link peers are deleted only when our AP disassociates us. */
  predicate TdlsTeardownApplies(b: Build, role: Role, peerMlm: MlmState, saIsCurrentBssid: bool)
  {
    b.tdls && role == StaRole && (peerMlm == LinkEstablished || peerMlm == MlmIdle) && saIsCurrentBssid
  }

  /** The branch a received frame ends on. */
  datatype Verdict =
    | RejectAddress
    | SuppressDuringTeardown
    | RejectShort
    | EscalateUnprotected
    | RejectNoPeer
    | RejectAckPending
    | RejectUnknownAp
    | AbortReassoc
    | RejectChannelSwitch
    | RejectRoleState
    | RejectPeerDeleting
    | AcceptRestoreReassoc
    | AcceptIndicate
  {
    /** The frame got past every gate and the peer record is torn down. */
    predicate Accepted()
    {
      AcceptRestoreReassoc? || AcceptIndicate?
    }
  }

  /** The gates in the order the handler applies them; the first that fires decides. */
  function Classify(s: SessionView, p: Option<PeerView>, f: RxFrame, c: Collaborators, b: Build): (v: Verdict)
    ensures v.Accepted() <==>
              && !AddressRejected(c)
              && !TeardownInProgress(s.role, s.smeState)
              && f.payloadLen >= ReasonCodeLen
              && !NeedsUnprotectedInd(b, s.rmfEnabled, f.unprotected, s.mlmState, s.prevMlmState)
              && p.Some? && !c.ackPending
              && (c.reassocInProgress ==> c.saIsReassocBssid && c.saIsCurrentBssid)
              && ReasonPolicy(s.role, s.smeState, f.reasonCode, s.channelSwitchState).Proceed?
              && !PeerDeletePending(p.value.mlmState)
    ensures v == AcceptRestoreReassoc ==> c.reassocInProgress
    ensures v == AcceptIndicate ==> !c.reassocInProgress
    ensures f.payloadLen < ReasonCodeLen ==> v in {RejectAddress, SuppressDuringTeardown, RejectShort}
  {
    if AddressRejected(c) then RejectAddress
    else if TeardownInProgress(s.role, s.smeState) then SuppressDuringTeardown
    else if f.payloadLen < ReasonCodeLen then RejectShort
    else if NeedsUnprotectedInd(b, s.rmfEnabled, f.unprotected, s.mlmState, s.prevMlmState) then EscalateUnprotected
    else if p.None? then RejectNoPeer
    else if c.ackPending then RejectAckPending
    else if c.reassocInProgress && !c.saIsReassocBssid then RejectUnknownAp
    else if c.reassocInProgress && !c.saIsCurrentBssid then AbortReassoc
    else match ReasonPolicy(s.role, s.smeState, f.reasonCode, s.channelSwitchState)
      case IgnoreForChannelSwitch => RejectChannelSwitch
      case IgnoreForRole => RejectRoleState
      case Proceed =>
        if PeerDeletePending(p.value.mlmState) then RejectPeerDeleting
        else if c.reassocInProgress then AcceptRestoreReassoc
        else AcceptIndicate
  }
}
