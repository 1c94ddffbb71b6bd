/** Values shared by the disassociation handler: the session and peer enumerations of the
    MAC-layer management entity, the received frame, the answers of the collaborators the
    handler consults, and the outbound actions it can take. */
module MacTypes {

  datatype Option<+T> = None | Some(value: T)

  type uint8 = x: int | 0 <= x < 0x100
  type uint16 = x: int | 0 <= x < 0x1_0000
  type int8 = x: int | -0x80 <= x < 0x80

  /** A 48-bit IEEE 802 MAC address, one octet per element. */
  type MacAddr = a: seq<uint8> | |a| == 6 witness [0, 0, 0, 0, 0, 0]

  /** Size of the fixed management-frame MAC header (frame control, duration, three
      addresses, sequence control), section 9.3.3.2 of IEEE 802.11-2016. */
  const MgmtHeaderLen: nat := 24

  /** The Disassociation frame body starts with the 2-octet Reason Code field
      (section 9.3.3.4 and section 9.4.1.7 of IEEE 802.11-2016). */
  const ReasonCodeLen: nat := 2

  // The two "leaving the BSS" reason codes, Table 9-45 of IEEE 802.11-2016.
  const DeauthLeavingBssReason: uint16 := 3
  const DisassocLeavingBssReason: uint16 := 8

  /** The system role of a session. */
  datatype Role =
    | UnknownRole
    | ApRole
    | StaInIbssRole
    | StaRole
    | BtAmpStaRole
    | BtAmpApRole
    | P2pDeviceRole

  /** The session's connection-management (SME) state. */
  datatype SmeState =
    | SmeOffline
    | SmeIdle
    | SmeSuspend
    | WaitScan
    | WaitJoin
    | WaitAuth
    | WaitAssoc
    | WaitReassoc
    | WaitReassocLinkFail
    | JoinFailure
    | SmeAssociated
    | SmeReassociated
    | SmeLinkEst
    | SmeLinkEstWaitScan
    | WaitPreAuth
    | WaitDisassoc
    | WaitDeauth
    | WaitStartBss
    | WaitStopBss
    | SmeNormal

  /** MLME state, used both for the session and for each peer record. */
  datatype MlmState =
    | MlmOffline
    | MlmIdle
    | WaitProbeResp
    | PassiveScan
    | WaitJoinBeacon
    | Joined
    | BssStarted
    | WaitAuthFrame2
    | WaitAuthFrame3
    | WaitAuthFrame4
    | AuthRspTimeout
    | Authenticated
    | WaitAssocRsp
    | WaitReassocRsp
    | MlmAssociated
    | MlmReassociated
    | LinkEstablished
    | WaitAssocCnf
    | WaitAddBssRsp
    | WaitDelBssRsp
    | WaitAddStaRsp
    | WaitDelStaRsp

  /** State of a pending channel switch announced by the AP. */
  datatype ChannelSwitchState = SwitchIdle | PrimaryOnly | PrimaryAndSecondary | SecondaryOnly

  /** Why a peer record is being torn down. */
  datatype CleanupTrigger =
    | HostDisassoc
    | HostDeauth
    | PeerEntityDisassoc
    | PeerEntityDeauth
    | LinkMonitoringDisassoc
    | LinkMonitoringDeauth
    | JoinFailureTrigger
    | ReassocRejectTrigger

  /** Result codes handed to the SME layer. */
  datatype SmeResultCode = SmeSuccess | SmeReassocRefused

  /** A received Disassociation frame, as the receive path hands it over: header
      fields, the payload length, the reason code read from the first two body octets,
      whether the decryption unit flagged it as unprotected, and its normalised RSSI.
      `reasonCode` means something only when `payloadLen >= ReasonCodeLen`. */
  datatype RxFrame = RxFrame(
    subType: uint8,
    da: MacAddr,
    sa: MacAddr,
    payloadLen: nat,
    reasonCode: uint16,
    unprotected: bool,
    rssi: int8)

  /** The answers of the collaborators the handler consults, one boolean per query. */
  datatype Collaborators = Collaborators(
    saIsGroup: bool,          // source address is a group address
    daIsGroup: bool,          // destination address is a group address
    daIsBroadcast: bool,      // destination address is the broadcast address
    a1Valid: bool,            // destination passes the session's A1-address check
    ackPending: bool,         // a disassoc/deauth we sent to the source awaits its ack
    reassocInProgress: bool,  // the station is waiting for a reassociation response
    saIsReassocBssid: bool,   // source is the BSS we are reassociating to
    saIsCurrentBssid: bool)   // source is the BSS we are associated with

  /** Optional features selected at build time. */
  datatype Build = Build(pmf: bool, tdls: bool)

  /** The indication posted to the MLME event queue on the accepted path. */
  datatype MlmDisassocInd = MlmDisassocInd(
    peerMacAddr: MacAddr,
    reasonCode: uint8,
    disassocTrigger: CleanupTrigger,
    sessionId: uint8)

  /** Everything the handler does outside the session and the peer record. */
  datatype Action =
    | ThrottledLog(count: nat)
    | UnprotectedMgmtFrameInd(subType: uint8, length: nat, smeSessionId: uint8)
    | CleanUpDisassocDeauthReq(peer: MacAddr)
    | RestorePreReassocState(result: SmeResultCode, reason: uint16)
    | DeleteTdlsPeers
    | UpdateLostLinkInfo(rssi: int8)
    | PostMlmDisassocInd(ind: MlmDisassocInd)
    | SendSmeDisassocInd(peer: MacAddr)

  /** The session fields the handler reads or writes. */
  datatype SessionView = SessionView(
    role: Role,
    smeState: SmeState,
    mlmState: MlmState,
    prevMlmState: MlmState,
    disassocmsgcnt: nat,
    rmfEnabled: bool,
    channelSwitchState: ChannelSwitchState,
    assocResponseData: Option<seq<uint8>>,
    peSessionId: uint8,
    smeSessionId: uint8)

  /** The peer-record fields the handler reads or writes. */
  datatype PeerView = PeerView(
    staAddr: MacAddr,
    mlmState: MlmState,
    cleanupTrigger: CleanupTrigger,
    disassocReason: uint16,
    updateContext: bool)
}
