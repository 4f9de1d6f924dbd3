/**
  The broadcast fan-out of the emote translator: `processEmote` (veto, then one
  delivery attempt per other open session, in snapshot order) and `playEmote`
  (the packet one receiving session gets, if its entity cache sees the emitter
  as a player).
 */
module Broadcast {
  import opened EmoteModel

  /** The lookup of the emitter's Java id in a receiving session's entity cache yields a player. */
  predicate SeesPlayer(target: Session, emoterJavaId: int) {
    emoterJavaId in target.entityCache && target.entityCache[emoterJavaId].isPlayer
  }

  /**
    playEmote: the outbound packet for `target`. It carries the runtime id the
    target itself uses for the emitter, the emitter's xuid, an empty platform
    id and the emote id unchanged; there is none when the target's cache holds
    no player entity under the emitter's Java id.
   */
  function PlayEmote(target: Session, emoterJavaId: int, emoterXuid: string, emoteId: string): (r: Option<Delivery>)
    ensures r.Some? <==> SeesPlayer(target, emoterJavaId)
    ensures r.Some? ==> r.value.target == target.id
    ensures r.Some? ==> r.value.packet.runtimeEntityId == target.entityCache[emoterJavaId].geyserId
    ensures r.Some? ==> r.value.packet.xuid == emoterXuid && r.value.packet.emoteId == emoteId
    ensures r.Some? ==> r.value.packet.platformId == ""
  {
    if emoterJavaId in target.entityCache then
      var emoter := target.entityCache[emoterJavaId];
      if emoter.isPlayer then Some(Delivery(target.id, OutboundEmote(emoter.geyserId, emoterXuid, "", emoteId)))
      else None
    else None
  }

  /** The fan-out filter: a session other than the emitter that is not closed. */
  predicate IsAudience(s: Session, emitterId: SessionId) {
    s.id != emitterId && !s.closed
  }

  /** The sessions of the snapshot that are audience of the emitter, in snapshot order. */
  function Audience(sessions: seq<Session>, emitterId: SessionId): (r: seq<Session>)
    ensures forall s <- r :: s in sessions && IsAudience(s, emitterId)
    ensures forall s <- sessions :: IsAudience(s, emitterId) ==> s in r
    decreases |sessions|
  {
    if |sessions| == 0 then []
    else (if IsAudience(sessions[0], emitterId) then [sessions[0]] else []) + Audience(sessions[1..], emitterId)
  }

  /** The packets that `PlayEmote` produces for `targets`, in order. */
  function PlayAll(targets: seq<Session>, emoterJavaId: int, emoterXuid: string, emoteId: string): (r: seq<Delivery>)
    ensures |r| <= |targets|
    ensures forall d <- r :: exists t <- targets :: PlayEmote(t, emoterJavaId, emoterXuid, emoteId) == Some(d)
    decreases |targets|
  {
    if |targets| == 0 then []
    else
      var head := PlayEmote(targets[0], emoterJavaId, emoterXuid, emoteId);
      var rest := PlayAll(targets[1..], emoterJavaId, emoterXuid, emoteId);
      assert forall d <- rest :: exists t <- targets :: PlayEmote(t, emoterJavaId, emoterXuid, emoteId) == Some(d) by {
        forall d <- rest ensures exists t <- targets :: PlayEmote(t, emoterJavaId, emoterXuid, emoteId) == Some(d) {
          var t :| t in targets[1..] && PlayEmote(t, emoterJavaId, emoterXuid, emoteId) == Some(d);
          assert t in targets;
        }
      }
      (if head.Some? then [head.value] else []) + rest
  }

  /**
    processEmote: when the emote event is cancelled nothing is delivered;
    otherwise every audience session of the snapshot gets what `PlayEmote`
    builds for it, in snapshot order. The emitter never receives its own emote.
   */
  function ProcessEmote(cancelled: bool, emitter: Session, sessions: seq<Session>, packet: EmotePacket): (r: seq<Delivery>)
    ensures cancelled ==> r == []
    ensures forall d <- r :: d.target != emitter.id
    ensures forall d <- r :: exists t <- sessions ::
      && IsAudience(t, emitter.id)
      && SeesPlayer(t, emitter.javaId)
      && d == Delivery(t.id, OutboundEmote(t.entityCache[emitter.javaId].geyserId, emitter.xuid, "", packet.emoteId))
  {
    if cancelled then []
    else PlayAll(Audience(sessions, emitter.id), emitter.javaId, emitter.xuid, packet.emoteId)
  }

  /** The ids of the receiving sessions, in delivery order. */
  function Targets(ds: seq<Delivery>): (r: seq<SessionId>)
    ensures |r| == |ds|
    ensures forall i :: 0 <= i < |ds| ==> r[i] == ds[i].target
    decreases |ds|
  {
    if |ds| == 0 then [] else [ds[0].target] + Targets(ds[1..])
  }

  function Ids(sessions: seq<Session>): (r: seq<SessionId>)
    ensures |r| == |sessions|
    ensures forall i :: 0 <= i < |sessions| ==> r[i] == sessions[i].id
    decreases |sessions|
  {
    if |sessions| == 0 then [] else [sessions[0].id] + Ids(sessions[1..])
  }

  /** No two sessions of the snapshot share an id. */
  predicate DistinctIds(sessions: seq<Session>) {
    forall i, j :: 0 <= i < j < |sessions| ==> sessions[i].id != sessions[j].id
  }

  /** `a` is obtained from `b` by dropping elements. */
  predicate IsSubsequence<T(==)>(a: seq<T>, b: seq<T>)
    decreases |b|
  {
    if |a| == 0 then true
    else if |b| == 0 then false
    else (a[0] == b[0] && IsSubsequence(a[1..], b[1..])) || IsSubsequence(a, b[1..])
  }

  lemma {:induction false} AudienceAppend(a: seq<Session>, b: seq<Session>, emitterId: SessionId)
    ensures Audience(a + b, emitterId) == Audience(a, emitterId) + Audience(b, emitterId)
    decreases |a|
  {
    if |a| == 0 {
      assert a + b == b;
    } else {
      assert (a + b)[1..] == a[1..] + b;
      AudienceAppend(a[1..], b, emitterId);
    }
  }

  lemma {:induction false} PlayAllAppend(a: seq<Session>, b: seq<Session>, javaId: int, xuid: string, emoteId: string)
    ensures PlayAll(a + b, javaId, xuid, emoteId) == PlayAll(a, javaId, xuid, emoteId) + PlayAll(b, javaId, xuid, emoteId)
    decreases |a|
  {
    if |a| == 0 {
      assert a + b == b;
    } else {
      assert (a + b)[1..] == a[1..] + b;
      PlayAllAppend(a[1..], b, javaId, xuid, emoteId);
    }
  }

  /** One more session at the end of the snapshot adds at most its own delivery at the end. */
  lemma FanOutSnoc(prefix: seq<Session>, other: Session, emitterId: SessionId, javaId: int, xuid: string, emoteId: string)
    ensures PlayAll(Audience(prefix + [other], emitterId), javaId, xuid, emoteId)
      == PlayAll(Audience(prefix, emitterId), javaId, xuid, emoteId)
         + (if IsAudience(other, emitterId) && PlayEmote(other, javaId, xuid, emoteId).Some?
            then [PlayEmote(other, javaId, xuid, emoteId).value] else [])
  {
    AudienceAppend(prefix, [other], emitterId);
    PlayAllAppend(Audience(prefix, emitterId), Audience([other], emitterId), javaId, xuid, emoteId);
  }

  /**
    The loop of processEmote as written: fire the event, then walk the session
    snapshot, skip the emitter itself and closed sessions, and play the emote to
    each other session. Whether the call runs inline or is queued on the target's
    event loop, each target gets the same single playEmote.
   */
  method ProcessEmoteLoop(cancelled: bool, emitter: Session, sessions: seq<Session>, packet: EmotePacket)
    returns (out: seq<Delivery>)
    ensures out == ProcessEmote(cancelled, emitter, sessions, packet)
  {
    if cancelled {
      return [];
    }
    var javaId := emitter.javaId;
    var xuid := emitter.xuid;
    var emote := packet.emoteId;
    out := [];
    var i := 0;
    while i < |sessions|
      invariant 0 <= i <= |sessions|
      invariant out == PlayAll(Audience(sessions[..i], emitter.id), javaId, xuid, emote)
    {
      var other := sessions[i];
      assert sessions[..i + 1] == sessions[..i] + [other];
      FanOutSnoc(sessions[..i], other, emitter.id, javaId, xuid, emote);
      if other.id != emitter.id {
        if !other.closed {
          var played := PlayEmote(other, javaId, xuid, emote);
          if played.Some? {
            out := out + [played.value];
          }
        }
      }
      i := i + 1;
    }
    assert sessions[..i] == sessions;
  }

  /** The first session of the snapshot contributes its own delivery, if any, ahead of the rest. */
  lemma FanOutCons(s: Session, rest: seq<Session>, emitter: Session, emoteId: string)
    ensures Targets(PlayAll(Audience([s] + rest, emitter.id), emitter.javaId, emitter.xuid, emoteId))
      == (if IsAudience(s, emitter.id) && SeesPlayer(s, emitter.javaId) then [s.id] else [])
         + Targets(PlayAll(Audience(rest, emitter.id), emitter.javaId, emitter.xuid, emoteId))
  {
    var head := if IsAudience(s, emitter.id) then [s] else [];
    assert ([s] + rest)[1..] == rest;
    assert Audience([s] + rest, emitter.id) == head + Audience(rest, emitter.id);
    PlayAllAppend(head, Audience(rest, emitter.id), emitter.javaId, emitter.xuid, emoteId);
    TargetsAppend(PlayAll(head, emitter.javaId, emitter.xuid, emoteId),
                  PlayAll(Audience(rest, emitter.id), emitter.javaId, emitter.xuid, emoteId));
  }

  /**
    Each session of the snapshot receives the emote exactly once when it is
    audience and its cache sees the emitter as a player, and never otherwise.
   */
  lemma {:induction false} DeliveredOnceIff(cancelled: bool, emitter: Session, sessions: seq<Session>, packet: EmotePacket, t: Session)
    requires DistinctIds(sessions)
    requires t in sessions
    ensures multiset(Targets(ProcessEmote(cancelled, emitter, sessions, packet)))[t.id]
      == (if !cancelled && IsAudience(t, emitter.id) && SeesPlayer(t, emitter.javaId) then 1 else 0)
  {
    if !cancelled {
      AudienceCount(sessions, emitter, packet.emoteId, t);
    }
  }

  lemma {:induction false} AudienceCount(sessions: seq<Session>, emitter: Session, emoteId: string, t: Session)
    requires DistinctIds(sessions)
    requires t in sessions
    ensures multiset(Targets(PlayAll(Audience(sessions, emitter.id), emitter.javaId, emitter.xuid, emoteId)))[t.id]
      == (if IsAudience(t, emitter.id) && SeesPlayer(t, emitter.javaId) then 1 else 0)
    decreases |sessions|
  {
    var s := sessions[0];
    var rest := sessions[1..];
    assert sessions == [s] + rest;
    FanOutCons(s, rest, emitter, emoteId);
    var headIds: seq<SessionId> := if IsAudience(s, emitter.id) && SeesPlayer(s, emitter.javaId) then [s.id] else [];
    var restIds := Targets(PlayAll(Audience(rest, emitter.id), emitter.javaId, emitter.xuid, emoteId));
    if t == s {
      RestOmits(sessions, t);
      NotTargeted(rest, emitter, emoteId, t.id);
    } else {
      RestKeeps(sessions, t);
      AudienceCount(rest, emitter, emoteId, t);
    }
  }

  /** In a snapshot with distinct ids, no later session shares the first one's id. */
  lemma RestOmits(sessions: seq<Session>, t: Session)
    requires DistinctIds(sessions)
    requires |sessions| > 0 && t == sessions[0]
    ensures forall u <- sessions[1..] :: u.id != t.id
  {
  }

  /** Any other session of a snapshot with distinct ids lies in its tail, under an id unlike the first one's. */
  lemma RestKeeps(sessions: seq<Session>, t: Session)
    requires DistinctIds(sessions)
    requires t in sessions && |sessions| > 0 && t != sessions[0]
    ensures t in sessions[1..] && t.id != sessions[0].id
    ensures DistinctIds(sessions[1..])
  {
  }

  lemma TargetsAppend(a: seq<Delivery>, b: seq<Delivery>)
    ensures Targets(a + b) == Targets(a) + Targets(b)
  {
  }

  /** A session whose id no snapshot session has receives nothing. */
  lemma {:induction false} NotTargeted(sessions: seq<Session>, emitter: Session, emoteId: string, id: SessionId)
    requires forall u <- sessions :: u.id != id
    ensures id !in Targets(PlayAll(Audience(sessions, emitter.id), emitter.javaId, emitter.xuid, emoteId))
  {
    var out := PlayAll(Audience(sessions, emitter.id), emitter.javaId, emitter.xuid, emoteId);
    forall k | 0 <= k < |out| ensures Targets(out)[k] != id {
      var t :| t in Audience(sessions, emitter.id) && PlayEmote(t, emitter.javaId, emitter.xuid, emoteId) == Some(out[k]);
      assert t in sessions;
    }
  }

  /** The receiving sessions appear in the order of the snapshot. */
  lemma {:induction false} DeliveriesFollowSnapshotOrder(cancelled: bool, emitter: Session, sessions: seq<Session>, packet: EmotePacket)
    ensures IsSubsequence(Targets(ProcessEmote(cancelled, emitter, sessions, packet)), Ids(sessions))
  {
    if !cancelled {
      PlayAllInOrder(sessions, emitter, packet.emoteId);
    }
  }

  lemma {:induction false} PlayAllInOrder(sessions: seq<Session>, emitter: Session, emoteId: string)
    ensures IsSubsequence(Targets(PlayAll(Audience(sessions, emitter.id), emitter.javaId, emitter.xuid, emoteId)), Ids(sessions))
    decreases |sessions|
  {
    if |sessions| > 0 {
      var s := sessions[0];
      var rest := sessions[1..];
      assert sessions == [s] + rest;
      FanOutCons(s, rest, emitter, emoteId);
      PlayAllInOrder(rest, emitter, emoteId);
      var restIds := Targets(PlayAll(Audience(rest, emitter.id), emitter.javaId, emitter.xuid, emoteId));
      var b := Ids(sessions);
      assert b[1..] == Ids(rest);
      if IsAudience(s, emitter.id) && SeesPlayer(s, emitter.javaId) {
        assert ([s.id] + restIds)[1..] == restIds;
      } else {
        assert Targets(PlayAll(Audience(sessions, emitter.id), emitter.javaId, emitter.xuid, emoteId)) == restIds;
      }
    }
  }
}
