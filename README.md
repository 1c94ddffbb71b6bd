# Disassociation frame receive path (qcacld-2.0 PE/LIM), modelled in Dafny

This project models `limProcessDisassocFrame`, the handler that the MAC-layer
management entity (LIM, in the driver's protocol engine) runs when a station or AP
receives an IEEE 802.11 Disassociation management frame (section 9.3.3.4 of
IEEE 802.11-2016; its body starts with the 2-octet Reason Code field of section
9.4.1.7).

The handler is a straight run of early-return gates:

1. address checks;
2. suppression of repeated frames while a station already tears down, with a throttled log counter;
3. minimum length;
4. escalation of unprotected frames on a protected-management-frame session (SA Query, section 11.13 of IEEE 802.11-2016);
5. peer lookup;
6. pending-ack redundancy;
7. the reassociation checks;
8. the role and reason-code policy with its channel-switch exception;
9. the peer delete-pending check.

Only a frame that passes every gate changes the peer record. It then either posts the
disassociation indications or, when a reassociation is still in progress, frees the
buffered reassociation response and restores the pre-reassociation state.

Layout:

- `mac_types.dfy` (`MacTypes`): the session/peer enumerations, the received frame
  (`RxFrame`), the collaborators' answers (`Collaborators`), the build options
  (`Build`: 802.11w and TDLS support) and the outbound `Action`s.
- `disassoc_gates.dfy` (`DisassocGates`): each gate as a pure predicate, the
  role/reason-code switch (`ReasonPolicy`), and `Classify`, which gives the branch
  (`Verdict`) a frame ends on.
- `disassoc_spec.dfy` (`DisassocSpec`): `Receive`, the whole handler as a function
  from the session and peer state before the call to the state after it and the
  actions taken, in order.
- `disassoc_frame.dfy` (`DisassocFrame`): the `Session` and `PeerContext` classes,
  whose fields the handler updates in place. It also holds `ProcessDisassocFrame`,
  the imperative handler with the same early returns as the C function. Its
  postcondition says its new state and its actions are exactly those of `Receive`.
- `disassoc_properties.dfy` (`DisassocProperties`): one lemma per gate and per outcome.
- `repeated_frames.dfy` (`RepeatedFrames`): frames delivered one after another. While
  a station tears down they are absorbed, and the log is throttled to one line per
  16 frames.

Three points about the code that are easy to misread:

- During a reassociation the handler drops a frame from the current AP unless its
  source is also the reassociation target (`IS_REASSOC_BSSID`, line 204, as the comment
  at lines 199-203 says). It goes on only when the source is both the target and the
  current BSSID.
- The length check (line 131) comes after the teardown suppression (lines 117-129), so
  a short frame received during teardown is still counted.
- The comment at line 120 speaks of every 15th frame. The code logs when the count
  before the increment is a multiple of 16, which is what is modelled.

## Model

| member | source | states |
|---|---|---|
| `DisassocGates.ReasonPolicy` | drivers/staging/qcacld-2.0/CORE/MAC/src/pe/lim/limProcessDisassocFrame.c:220-294 | An AP or BT-AMP AP role always proceeds, whatever the code. A station or BT-AMP station outside WaitJoin/WaitAuth/WaitAssoc/WaitReassoc proceeds unless the code is one of the two leaving-BSS codes and a channel switch is pending; unlisted codes proceed. Every other role/state is refused, and only those are. |
| `DisassocGates.Classify` | drivers/staging/qcacld-2.0/CORE/MAC/src/pe/lim/limProcessDisassocFrame.c:92-374 | A frame is accepted if and only if it passes every gate, in both directions: the address checks `AddressRejected` (lines 92-115), the teardown suppression, the length check, the unprotected-frame escalation `NeedsUnprotectedInd` (lines 147-155, 802.11w built in, protection on, frame unprotected, not just after a join), the peer lookup, the pending ack, the reassociation checks, `ReasonPolicy` and the delete-pending check. The accepted branch restores the reassociation exactly when one is in progress. A frame shorter than 2 octets ends at the address, suppression or length gate. |
| `DisassocSpec.MarkPeerDisassoc` | drivers/staging/qcacld-2.0/CORE/MAC/src/pe/lim/limProcessDisassocFrame.c:320-337 | The peer's cleanup trigger becomes PeerDisassoc and its stored reason becomes the frame's code. Its update-context flag is raised exactly when it is in WaitAssocCnf. Address and MLM state are kept. |
| `DisassocSpec.Receive` | drivers/staging/qcacld-2.0/CORE/MAC/src/pe/lim/limProcessDisassocFrame.c:72-385 | Of the session, only the suppression counter and the buffered reassociation response can change, and the buffer can only be released. The peer record keeps its presence and changes only on the accepted path, and only in trigger, reason and update flag. The counter moves only on suppression or acceptance. An MLME indication is posted only on the indicating accepted branch. Its effects use `SuppressionLog` (lines 120-127: one line carrying the new count when the old count is a multiple of 16), `TdlsTeardownApplies` (lines 311-317: TDLS built in, station role, peer linked or idle, source the current BSSID) and `DisassocIndication` (lines 339-348: the reason code narrowed to one octet). |
| `DisassocFrame.ProcessDisassocFrame` | drivers/staging/qcacld-2.0/CORE/MAC/src/pe/lim/limProcessDisassocFrame.c:72-385 | The in-place handler leaves the session and peer records, and returns the actions, exactly as `Receive` gives for the state before the call. |
| `DisassocFrame.Session.CountSuppressedFrame` | drivers/staging/qcacld-2.0/CORE/MAC/src/pe/lim/limProcessDisassocFrame.c:117-129 | The counter grows by one and nothing else in the session changes. The log line, carrying the new count, appears exactly when the old count is a multiple of 16. |
| `DisassocFrame.Session.ResetDisassocMsgCount` | drivers/staging/qcacld-2.0/CORE/MAC/src/pe/lim/limProcessDisassocFrame.c:350-355 | The counter becomes 0 and nothing else in the session changes. |
| `DisassocFrame.Session.ReleaseAssocResponse` | drivers/staging/qcacld-2.0/CORE/MAC/src/pe/lim/limProcessDisassocFrame.c:367-370 | The buffered reassociation response becomes absent and nothing else in the session changes. |
| `DisassocFrame.PeerContext.MarkDisassociated` | drivers/staging/qcacld-2.0/CORE/MAC/src/pe/lim/limProcessDisassocFrame.c:320-337 | The peer record becomes `MarkPeerDisassoc` of its old value. |
| `DisassocProperties.AddressRejectionIsInert` | drivers/staging/qcacld-2.0/CORE/MAC/src/pe/lim/limProcessDisassocFrame.c:92-115 | A frame from a group source, to a multicast non-broadcast destination, or failing the A1 check changes nothing and emits nothing. |
| `DisassocProperties.TeardownSuppression` | drivers/staging/qcacld-2.0/CORE/MAC/src/pe/lim/limProcessDisassocFrame.c:117-136 | A station in WaitDisassoc or WaitDeauth increases the counter by exactly 1 and changes nothing else, whatever the frame's length. It logs only when the old count mod 16 is 0, and emits nothing else. |
| `DisassocProperties.ShortFrameIsInert` | drivers/staging/qcacld-2.0/CORE/MAC/src/pe/lim/limProcessDisassocFrame.c:131-136 | A frame with fewer than 2 payload octets that got past the first two gates changes nothing and emits nothing. The outcome does not depend on its reason code, which is never read. |
| `DisassocProperties.UnprotectedFrameEscalates` | drivers/staging/qcacld-2.0/CORE/MAC/src/pe/lim/limProcessDisassocFrame.c:147-165 | With 802.11w built in, protection enabled and an unprotected frame outside (LinkEstablished, Joined), there is exactly one unprotected-frame indication, with the frame length plus the 24-octet header. There is no disassoc indication and no state change. |
| `DisassocProperties.PostJoinUnprotectedFrameContinues` | drivers/staging/qcacld-2.0/CORE/MAC/src/pe/lim/limProcessDisassocFrame.c:151-153 | In (LinkEstablished, Joined) an unprotected frame is processed exactly like a protected one. |
| `DisassocProperties.NoPeerIsInert` | drivers/staging/qcacld-2.0/CORE/MAC/src/pe/lim/limProcessDisassocFrame.c:172-186 | A frame whose source has no association context changes nothing and emits nothing. |
| `DisassocProperties.AckPendingCleansUp` | drivers/staging/qcacld-2.0/CORE/MAC/src/pe/lim/limProcessDisassocFrame.c:188-195 | With a disassoc/deauth ack pending for the source, the only effect is one clean-up of that pending request, with no peer or session change. |
| `DisassocProperties.ReassocGate` | drivers/staging/qcacld-2.0/CORE/MAC/src/pe/lim/limProcessDisassocFrame.c:197-218 | During a reassociation, a source that is not the reassociation BSSID is dropped with no effect. A reassociation BSSID that is not the current BSSID causes exactly one restore with "reassociation refused" and the frame's reason code, and nothing else. |
| `DisassocProperties.RolePolicy` | drivers/staging/qcacld-2.0/CORE/MAC/src/pe/lim/limProcessDisassocFrame.c:220-294 | Once the earlier gates pass, an AP role never drops. A connected station drops if and only if the code is 3 or 8 and a channel switch is pending. IBSS, unknown and P2P-device roles, and a station still establishing, always drop. A drop changes nothing. |
| `DisassocProperties.DeletePendingPeerIsInert` | drivers/staging/qcacld-2.0/CORE/MAC/src/pe/lim/limProcessDisassocFrame.c:296-309 | A peer in WaitDelStaRsp or WaitDelBssRsp is never modified, the buffered response is kept, and no MLME indication is posted, whichever gate the frame ends on. Once every earlier gate has passed, the frame is dropped at this gate with no action at all and no change to the session, the counter included. |
| `DisassocProperties.AcceptedFrameIndicates` | drivers/staging/qcacld-2.0/CORE/MAC/src/pe/lim/limProcessDisassocFrame.c:311-384 | The counter becomes 0. The peer gets trigger PeerDisassoc and the frame's reason, its update flag is raised iff it was in WaitAssocCnf, and nothing else of it changes. The actions are exactly the TDLS teardown when it applies, the lost-link update, one MLME disassoc indication carrying the reason's low octet and PeerDisassoc, and one SME disassoc indication; no restore. |
| `DisassocProperties.AcceptedDuringReassocRestores` | drivers/staging/qcacld-2.0/CORE/MAC/src/pe/lim/limProcessDisassocFrame.c:311-374 | With a reassociation still in progress, the peer is marked exactly as on the indicating path (trigger, reason, update flag) and the counter reset. The buffered response is released, and the actions are exactly the TDLS teardown when it applies and the restore with "reassociation refused" and the reason; no indication is posted. |
| `DisassocProperties.ApPeerLeavingBssIsIndicated` | drivers/staging/qcacld-2.0/CORE/MAC/src/pe/lim/limProcessDisassocFrame.c:220-241 | An AP receiving reason code 8 from a linked peer marks it and emits the lost-link update, the MLME indication and the SME indication. |
| `RepeatedFrames.TeardownAbsorbsFrames` | drivers/staging/qcacld-2.0/CORE/MAC/src/pe/lim/limProcessDisassocFrame.c:92-129 | Any sequence of frames received during teardown changes only the counter, by the number of frames passing the address checks. It leaves the peer alone and produces only throttled log lines, never an indication. |
| `RepeatedFrames.RepeatedFrameLogs` | drivers/staging/qcacld-2.0/CORE/MAC/src/pe/lim/limProcessDisassocFrame.c:117-129 | N copies of a well-addressed frame during teardown raise the counter by exactly N and log exactly `ThrottledLogs(count, N)`. |
| `RepeatedFrames.ThrottledLogsCount` | drivers/staging/qcacld-2.0/CORE/MAC/src/pe/lim/limProcessDisassocFrame.c:120-127 | N suppressed frames starting from count c log (c+N+15)/16 - (c+15)/16 lines, which is at most N/16 + 1. Every line carries a count congruent to 1 mod 16, within (c, c+N]. |

## Left out

- Reading the header, payload, length, RSSI and decryption feedback from the receive descriptor (`WDA_GET_RX_*`, lines 87-90, 149) is not modelled. These arrive as `RxFrame` fields, and the RSSI arrives already normalised.
- The byte order of `sirReadU16` (line 136) is not modelled. `RxFrame.reasonCode` is the value it returns.
- All log lines are left out except the throttled suppression log (lines 121-124), which is kept as the `ThrottledLog` action.
- The collaborators are booleans in `Collaborators`: `limIsGroupAddr`, `limIsAddrBC`, `lim_validate_received_frame_a1_addr`, `limCheckDisassocDeauthAckPending`, `limIsReassocInProgress`, `IS_REASSOC_BSSID` and `IS_CURRENT_BSSID`. Their code is not part of this model.
- `limIsReassocInProgress` is called twice (lines 198 and 357). One boolean answers both calls, because nothing between them changes the state the query reads.
- The association-table lookup `dphLookupHashEntry` is the `peer` argument of `ProcessDisassocFrame` (null when absent). The table itself is not part of this model.
- `limCleanUpDisassocDeauthReq`, `limRestorePreReassocState`, `limDeleteTDLSPeers`, `lim_update_lost_link_info`, `limPostSmeMessage`, `limSendSmeDisassocInd` and `limSendSmeUnprotectedMgmtFrameInd` are recorded only as actions, in order. What they do and how they serialise messages is not modelled. The unprotected-frame indication records the subtype, the length and the SME session id, but not the frame bytes.
- Freeing the buffered reassociation response (`vos_mem_free`, line 368) is modelled as the `Option` field becoming `None`.
- The `WLAN_FEATURE_11W` and `FEATURE_WLAN_TDLS` compile-time switches are the run-time `Build` flags.
- The numeric values of the reason codes come from Table 9-45 of IEEE 802.11-2016. The header defining the driver's reason-code, role, SME, MLM and channel-switch enumerations is not part of this model, so the enumerations list only the members that matter here.
- `DisassocFrame.Session.CountSuppressedFrame`: the counter is an unbounded `nat`. The field's declared width is not part of this model, so wrap-around is not modelled.
- `DisassocFrame.PeerContext.MarkDisassociated`: the one-octet `updateContext` flag is a `bool`. Setting it to 1 is setting it to `true`.
- The peer's `isDisassocDeauthInProgress` and the session's previous SME state are only logged by the handler, so they are not modelled.
