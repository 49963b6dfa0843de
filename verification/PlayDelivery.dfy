/**
  PLAY from the request to the first packets: the session machine, the queues of the tracks and the
  writers of the RTP sessions together.
  */
module PlayDelivery {
  import opened Common
  import opened BufferLog
  import opened BufferQueue
  import opened RtpWriter
  import RtspSession

  /** The writer of the i-th RTP session reads the queue of the track at[i]. */
  ghost predicate Linked(tracks: seq<Producer?>, writers: seq<RtpSession>, at: seq<nat>)
    reads set i | 0 <= i < |tracks| && tracks[i] != null :: tracks[i]
  {
    && |writers| == |at|
    && (forall i :: 0 <= i < |tracks| && tracks[i] != null ==> tracks[i].Valid())
    && (forall i, j :: 0 <= i < j < |tracks| && tracks[i] != null ==> tracks[i] != tracks[j])
    && (forall i :: 0 <= i < |at| ==> at[i] < |tracks| && tracks[at[i]] != null && writers[i].id in tracks[at[i]].cursors)
  }

  /** A seek puts every writer at the start of its queue. */
  method SeekLinked(tracks: seq<Producer?>, writers: seq<RtpSession>, at: seq<nat>)
    requires Linked(tracks, writers, at)
    modifies set i | 0 <= i < |tracks| && tracks[i] != null :: tracks[i]
    ensures Linked(tracks, writers, at)
    ensures forall i :: 0 <= i < |writers| ==> AtStart(tracks[at[i]].contents, writers[i].id)
  {
    SeekTracks(tracks);
  }

  /** RTSP_play with the seek of do_play: if the request gets so far, the queue of every track starts
      anew, and every writer is at the start of its queue; otherwise no queue is touched. */
  method PlayOnTracks(client: RtspSession.Client, q: RtspSession.PlayRequest,
                      tracks: seq<Producer?>, writers: seq<RtpSession>, at: seq<nat>)
    returns (code: nat)
    requires RtspSession.ClientInv(client.View()) && RtspSession.Allowed(client.View(), RtspSession.EPlay(q))
    requires Linked(tracks, writers, at)
    modifies client, client.session, set i | 0 <= i < |tracks| && tracks[i] != null :: tracks[i]
    ensures RtspSession.ClientInv(old(client.View())) && RtspSession.ClientInv(client.View())
    ensures (client.View(), code) == RtspSession.Play(old(client.View()), q) && Linked(tracks, writers, at)
    ensures if RtspSession.Seeks(old(client.View()), q)
            then forall i :: 0 <= i < |writers| ==> AtStart(tracks[at[i]].contents, writers[i].id)
            else forall i :: 0 <= i < |tracks| && tracks[i] != null ==> tracks[i].contents == old(tracks[i].contents)
  {
    var seeks := RtspSession.Seeks(client.View(), q);
    code := client.HandlePlay(q);
    if seeks {
      SeekLinked(tracks, writers, at);
    }
  }

  /** After a PLAY that seeks, the first packet of every RTP session has the sequence number 1 that the
      RTP-Info header of the reply announces, whatever happens to the queue until then. */
  method PlayAnnouncesOne(client: RtspSession.Client, q: RtspSession.PlayRequest,
                          tracks: seq<Producer?>, writers: seq<RtpSession>, at: seq<nat>, i: nat, ticks: seq<Tick>)
    returns (code: nat, done: nat)
    requires RtspSession.ClientInv(client.View()) && RtspSession.Allowed(client.View(), RtspSession.EPlay(q))
    requires Linked(tracks, writers, at) && i < |writers| && writers[i].Valid()
    requires forall k :: 0 <= k < |ticks| ==> StrangeTick(ticks[k], writers[i].id)
    modifies client, client.session, writers[i], set k | 0 <= k < |tracks| && tracks[k] != null :: tracks[k]
    ensures RtspSession.ClientInv(old(client.View()))
    ensures (client.View(), code) == RtspSession.Play(old(client.View()), q)
    ensures RtspSession.Seeks(old(client.View()), q) ==>
              && done <= |ticks| && FirstIsOne(writers[i].handed, old(writers[i].handed))
              && (done < |ticks| ==> ticks[done].Other? && !BufferQueue.Allowed(tracks[at[i]].Snap(), ticks[done].call))
  {
    var seeks := RtspSession.Seeks(client.View(), q);
    code := PlayOnTracks(client, q, tracks, writers, at);
    done := 0;
    if seeks {
      var p: Producer := tracks[at[i]];
      done := FirstPacketFromStart(writers[i], p, ticks);
    }
  }
}
