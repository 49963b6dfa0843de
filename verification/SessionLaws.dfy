/**
  What the requests of a session come to, field by field, and when a writer runs.
  */
module SessionLaws {
  import opened Common
  import opened RtspSession
  import RangeParser

  // ---------------------------------------------------------------- PLAY

  /** The request pauses the session first. */
  predicate PausesFirst(s: Session, q: PlayRequest) {
    s.state == Playing && q.vlc
  }

  /** The range that a PLAY goes on with, or makes of its header, for a resource of this duration. */
  predicate IsRequested(r: Range, q: PlayRequest, duration: real) {
    var asked := Requested(q);
    && r.begin == asked.begin
    && (asked.end >= 0.0 && asked.end <= duration ==> r.end == asked.end)
    && (asked.end < 0.0 || asked.end > duration ==> r.end == duration)
    && (asked.playback >= 0.0 ==> r.playback == asked.playback)
    && (asked.playback < 0.0 ==> r.playback == q.now)
  }

  /** The answer to a PLAY: which state, address, header, range or seek it is refused for. */
  lemma PlayAnswered(c: Option<Session>, q: PlayRequest)
    requires ClientInv(c)
    ensures var code := Play(c, q).1;
            if c == None || c.value.state == Init then code == 455
            else if q.urlCode != 200 then code == q.urlCode
            else
              var s := c.value;
              var parsed := if q.header == None then RangeParser.Parsed(true, DefaultRange)
                            else RangeParser.Parse(q.header.value, DefaultRange, q.stamp);
              if !parsed.ok then code == 501
              else if q.header != None && !s.resource.value.seekable && parsed.range.begin != 0.0 && parsed.range.end != -0.1
              then code == 456
              else if (s.state == Ready || q.vlc) && s.resource.value.seekable && !q.seekOk then code == 457
              else code == 200
  {
  }

  /** The session t plays after s did, or was ready.  Unless s was playing and goes on, and unless the
      first RTP session is multicast, the writer of every RTP session runs, on the range at the head
      of the list; otherwise no writer is started. */
  predicate Started(s: Session, t: Session, steps: bool)
    requires s.rtps != []
  {
    && t.state == Playing && t.playList != [] && |t.rtps| == |s.rtps|
    && t.resource == s.resource && t.resourceUri == s.resourceUri
    && (steps && !s.rtps[0].multicast ==>
          t.started && forall i :: 0 <= i < |t.rtps| ==>
            t.rtps[i] == Rtp(s.rtps[i].multicast, true, Some(t.playList[0].addr)))
    && (steps && s.rtps[0].multicast ==>
          t.started == s.started && forall i :: 0 <= i < |t.rtps| ==>
            t.rtps[i] == Rtp(s.rtps[i].multicast, s.rtps[i].running && s.state == Ready, s.rtps[i].range))
    && (!steps ==> t.rtps == s.rtps && t.started == s.started)
  }

  lemma ReadyStarts(s: Session, q: PlayRequest)
    requires Inv(s) && s.state == Ready && Play(Some(s), q).1 == OK
    ensures Play(Some(s), q).0.Some? && Started(s, Play(Some(s), q).0.value, true)
  {
  }

  /** A PLAY that pauses the session first is a PLAY of the paused session. */
  lemma PausedIsReady(s: Session, q: PlayRequest) returns (p: Session)
    requires Inv(s) && PausesFirst(s, q) && q.urlCode == OK
    ensures Inv(p) && p.state == Ready && Play(Some(s), q) == Play(Some(p), q)
    ensures p.started == s.started && p.resource == s.resource && p.resourceUri == s.resourceUri && |p.rtps| == |s.rtps|
    ensures forall i :: 0 <= i < |p.rtps| ==> p.rtps[i] == Rtp(s.rtps[i].multicast, false, s.rtps[i].range)
    ensures |p.playList| == |s.playList| > 0 && p.playList[1..] == s.playList[1..]
    ensures var h, g := s.playList[0], p.playList[0];
            g.addr == h.addr && g.range.end == h.range.end && g.range.begin == h.range.begin + (q.now - h.range.playback)
  {
    PauseKeepsInv(s, q.now);
    p := DoPause(s, q.now);
  }

  lemma PausedStarts(s: Session, q: PlayRequest)
    requires Inv(s) && PausesFirst(s, q) && Play(Some(s), q).1 == OK
    ensures Play(Some(s), q).0.Some? && Started(s, Play(Some(s), q).0.value, true)
  {
    assert q.urlCode == OK;
    var p := PausedIsReady(s, q);
    ReadyStarts(p, q);
  }

  lemma GoesOn(s: Session, q: PlayRequest)
    requires Inv(s) && s.state == Playing && !q.vlc && Play(Some(s), q).1 == OK
    ensures Play(Some(s), q).0.Some? && Started(s, Play(Some(s), q).0.value, false)
  {
  }

  /** A PLAY that succeeds starts the writers unless the session was playing and goes on. */
  lemma PlayStarts(c: Option<Session>, q: PlayRequest)
    requires ClientInv(c) && Play(c, q).1 == OK
    ensures c.Some? && c.value.rtps != [] && Play(c, q).0.Some?
    ensures Started(c.value, Play(c, q).0.value, c.value.state == Ready || q.vlc)
  {
    if c.value.state == Ready {
      ReadyStarts(c.value, q);
    } else if q.vlc {
      PausedStarts(c.value, q);
    } else {
      GoesOn(c.value, q);
    }
  }

  /** A PLAY that fails starts no writer; it stops them all if it pauses the session first, and else
      leaves them and the state as they were. */
  lemma PlayFails(c: Option<Session>, q: PlayRequest)
    requires ClientInv(c) && Play(c, q).1 != OK
    ensures Play(c, q).0.Some? <==> c.Some?
    ensures c.Some? ==>
              var s, t := c.value, Play(c, q).0.value;
              && t.started == s.started && t.resource == s.resource && t.resourceUri == s.resourceUri && |t.rtps| == |s.rtps|
              && (PausesFirst(s, q) && q.urlCode == OK ==>
                    t.state == Ready && forall i :: 0 <= i < |t.rtps| ==>
                      t.rtps[i] == Rtp(s.rtps[i].multicast, false, s.rtps[i].range))
              && (!PausesFirst(s, q) || q.urlCode != OK ==> t.state == s.state && t.rtps == s.rtps)
  {
  }

  /** The list of ranges after a PLAY: without a header a list that is there goes on, with the clock of
      its head restarted; a range that is asked for is put behind the others while the session
      plays, and in their place otherwise. */
  predicate Listed(s: Session, list: seq<RangeNode>, q: PlayRequest)
    requires s.resource.Some?
  {
    if q.header == None && s.playList != [] then
      && |list| == |s.playList| && list[1..] == s.playList[1..] && list[0].addr == s.playList[0].addr
      && list[0].range.playback == q.now && list[0].range.end == s.playList[0].range.end
      && list[0].range.begin == s.playList[0].range.begin
                                + if PausesFirst(s, q) then q.now - s.playList[0].range.playback else 0.0
    else
      var n := if s.state == Playing && !q.vlc then |s.playList| else 0;
      && |list| == n + 1 && list[..n] == s.playList[..n] && list[n].addr == q.addr
      && IsRequested(list[n].range, q, s.resource.value.duration)
  }

  lemma ReadyListed(s: Session, q: PlayRequest)
    requires Inv(s) && s.state == Ready && Play(Some(s), q).1 == OK
    ensures s.resource.Some? && Play(Some(s), q).0.Some? && Listed(s, Play(Some(s), q).0.value.playList, q)
  {
  }

  lemma GoesOnListed(s: Session, q: PlayRequest)
    requires Inv(s) && s.state == Playing && !q.vlc && Play(Some(s), q).1 == OK
    ensures s.resource.Some? && Play(Some(s), q).0.Some? && Listed(s, Play(Some(s), q).0.value.playList, q)
  {
  }

  lemma PausedListed(s: Session, q: PlayRequest)
    requires Inv(s) && PausesFirst(s, q) && Play(Some(s), q).1 == OK
    ensures s.resource.Some? && Play(Some(s), q).0.Some? && Listed(s, Play(Some(s), q).0.value.playList, q)
  {
    assert q.urlCode == OK;
    var p := PausedIsReady(s, q);
    ReadyListed(p, q);
  }

  lemma PlayListed(c: Option<Session>, q: PlayRequest)
    requires ClientInv(c) && Play(c, q).1 == OK
    ensures c.Some? && c.value.resource.Some? && Play(c, q).0.Some?
    ensures Listed(c.value, Play(c, q).0.value.playList, q)
  {
    if PausesFirst(c.value, q) {
      PausedListed(c.value, q);
    } else {
      if c.value.state == Ready {
        ReadyListed(c.value, q);
      } else {
        GoesOnListed(c.value, q);
      }
    }
  }

  /** Without a header the first PLAY plays the whole resource from now on. */
  lemma WholeByDefault(s: Session, q: PlayRequest)
    requires Inv(s) && s.state == Ready && s.playList == [] && q.header == None && Play(Some(s), q).1 == OK
    ensures s.resource.Some? && Play(Some(s), q).0.Some?
    ensures Play(Some(s), q).0.value.playList == [RangeNode(q.addr, RangeParser.Range(0.0, s.resource.value.duration, q.now))]
  {
    PlayListed(Some(s), q);
  }

  // ---------------------------------------------------------------- PAUSE and TEARDOWN

  /** A PAUSE is answered by the state and the address, and only changes a session that plays: every
      writer stops, the head of the list begins where playing stopped and has no clock. */
  lemma PauseAnswered(c: Option<Session>, urlCode: nat, now: real)
    requires ClientInv(c)
    ensures var (d, code) := Pause(c, urlCode, now);
            && code == (if c == None || c.value.state != Playing then 455 else urlCode)
            && (code != OK || c == None || c.value.state != Playing ==> d == c)
            && (c.Some? && c.value.state == Playing && urlCode == OK ==>
                  d.Some? &&
                  var s, t := c.value, d.value;
                  && t.state == Ready && t.started == s.started && t.resource == s.resource && t.resourceUri == s.resourceUri
                  && |t.rtps| == |s.rtps|
                  && (forall i :: 0 <= i < |t.rtps| ==> t.rtps[i] == Rtp(s.rtps[i].multicast, false, s.rtps[i].range))
                  && |t.playList| == |s.playList| > 0 && t.playList[1..] == s.playList[1..]
                  && var h, g := s.playList[0], t.playList[0];
                     && g.addr == h.addr && g.range.end == h.range.end && g.range.playback == -0.1
                     && g.range.begin == h.range.begin + (now - h.range.playback))
  {
  }

  /** A TEARDOWN with a valid address leaves no session; any other changes nothing. */
  lemma TeardownAnswered(c: Option<Session>, urlCode: nat)
    ensures Teardown(c, urlCode).1 == urlCode
    ensures Teardown(c, urlCode).0 == if urlCode == 200 then None else c
  {
  }

  // ---------------------------------------------------------------- SETUP

  lemma {:induction false} LastSlashAt(uri: string, track: string)
    requires '/' !in track
    ensures LastSlash(uri + "/" + track) == |uri|
    decreases |track|
  {
    var text := uri + "/" + track;
    if track != [] {
      assert text[..|text| - 1] == uri + "/" + track[..|track| - 1];
      LastSlashAt(uri, track[..|track| - 1]);
    }
  }

  lemma NoSlash(track: string)
    requires Unreserved(track)
    ensures '/' !in track
  {
  }

  /** The unreserved characters of section 2.3 of RFC 3986, and no others. */
  lemma UnreservedIff(text: string)
    ensures Unreserved(text) <==>
            forall i :: 0 <= i < |text| ==>
              var c := text[i] as int;
              48 <= c <= 57 || 65 <= c <= 90 || 97 <= c <= 122 || c == 45 || c == 46 || c == 95 || c == 126
  {
  }

  lemma SplitTarget(uri: string, track: string)
    ensures (uri + "/" + track)[..|uri|] == uri && (uri + "/" + track)[|uri|] == '/' && (uri + "/" + track)[|uri| + 1..] == track
  {
  }

  /** The session that a SETUP goes on with. */
  function Current(c: Option<Session>): Session {
    if c.Some? then c.value else NewSession
  }

  /** A SETUP for an existing track, with transports that lead to an RTP session, succeeds: the track
      gets an RTP session with a writer that does not run, a session without a resource gets this
      one, and one that was not set up becomes ready. */
  lemma SetupSucceeds(c: Option<Session>, q: SetupRequest, uri: string, track: string)
    requires ClientInv(c) && q.urlCode == OK && q.transports && q.rtp.Some? && q.target == uri + "/" + track && Unreserved(track)
    requires var s := Current(c);
             if s.resource == None then q.found.Some? && track in q.found.value.tracks
             else s.resourceUri == Some(uri) && track != "" && track in s.resource.value.tracks
    ensures var s := Current(c);
            var (d, code) := Setup(c, q);
            && code == 200 && d.Some?
            && d.value.rtps == s.rtps + [Rtp(q.rtp.value, false, None)]
            && d.value.state == (if s.state == Init then Ready else s.state)
            && d.value.resource == (if s.resource == None then q.found else s.resource)
            && d.value.resourceUri == Some(uri) && d.value.playList == s.playList && d.value.started == s.started
  {
    NoSlash(track);
    LastSlashAt(uri, track);
    SplitTarget(uri, track);
  }

  /** A SETUP that fails adds no RTP session and keeps the state and the list. */
  lemma SetupFails(c: Option<Session>, q: SetupRequest)
    requires ClientInv(c) && Setup(c, q).1 != OK
    ensures var d := Setup(c, q).0;
            && (d == None ==> c == None)
            && (d.Some? ==>
                  var s := Current(c);
                  && d.value.rtps == s.rtps && d.value.state == s.state && d.value.playList == s.playList
                  && d.value.started == s.started && (s.resource.Some? ==> d.value == s))
  {
  }

  /** What a first SETUP is refused for. */
  lemma FirstSetupRefused(q: SetupRequest, uri: string, track: string)
    requires q.urlCode == OK
    ensures var code := Setup(None, q).1;
            && (!q.transports ==> code == 461)
            && (q.transports && '/' !in q.target ==> code == 460)
            && (q.transports && '/' !in track && q.target == uri + "/" + track ==>
                  && (q.found == None ==> code == 404)
                  && (q.found.Some? && !Unreserved(track) ==> code == 460)
                  && (q.found.Some? && Unreserved(track) && track !in q.found.value.tracks ==> code == 404)
                  && (q.found.Some? && Unreserved(track) && track in q.found.value.tracks && q.rtp == None ==> code == 461))
  {
    if '/' !in track && q.target == uri + "/" + track {
      LastSlashAt(uri, track);
      SplitTarget(uri, track);
    }
  }

  /** A timer that fires changes nothing but whether it goes on. */
  lemma FireChanges(s: Session, i: nat, rearmed: bool)
    requires i < |s.rtps|
    ensures var t := Fired(s, i, rearmed);
            && |t.rtps| == |s.rtps| && t == s.(rtps := t.rtps)
            && (forall j :: 0 <= j < |s.rtps| && j != i ==> t.rtps[j] == s.rtps[j])
            && t.rtps[i] == Rtp(s.rtps[i].multicast, s.rtps[i].running && rearmed, s.rtps[i].range)
  {
  }

  /** The only events that cannot happen: a new range at the address of one of the list, and a timer
      that does not run. */
  lemma NotAllowedIff(c: Option<Session>, e: Event)
    ensures !Allowed(c, e) <==>
            match e
            case EPlay(q) => c.Some? && exists i :: 0 <= i < |c.value.playList| && c.value.playList[i].addr == q.addr
            case EFire(i, _) => !Running(c, i)
            case _ => false
  {
  }

  // ---------------------------------------------------------------- when a writer runs

  /** The last events that mattered to the i-th writer: it was resumed by a PLAY that succeeded, and has
      since neither been paused nor fired without being armed again. */
  ghost predicate Resumed(es: seq<Event>, i: nat)
    requires Runs(None, es)
    decreases |es|
  {
    es != [] &&
    (var k := |es| - 1;
     var before := Run(None, es[..k]);
     match es[k]
     case EPlay(q) =>
       if StateOf(before) == Init || q.urlCode != OK then Resumed(es[..k], i)
       else if before.value.state == Ready && Play(before, q).1 != OK then Resumed(es[..k], i)
       else if before.value.state == Playing && !q.vlc then Resumed(es[..k], i)
       else Play(before, q).1 == OK && i < |before.value.rtps| && !before.value.rtps[0].multicast
     case EPause(urlCode, _) => Resumed(es[..k], i) && !(urlCode == OK && StateOf(before) == Playing)
     case ETeardown(urlCode) => Resumed(es[..k], i) && urlCode != OK
     case EFire(j, rearmed) => Resumed(es[..k], i) && (j == i ==> rearmed)
     case ESetup(_) => Resumed(es[..k], i))
  }

  ghost predicate Running(c: Option<Session>, i: nat) {
    c.Some? && i < |c.value.rtps| && c.value.rtps[i].running
  }

  lemma ReadyStopped(s: Session, i: nat)
    requires Inv(s) && s.state != Playing
    ensures !Running(Some(s), i)
  {
  }

  lemma SetupKeepsRunning(c: Option<Session>, q: SetupRequest, i: nat)
    requires ClientInv(c)
    ensures Running(Setup(c, q).0, i) <==> Running(c, i)
  {
  }

  lemma PlayRunning(c: Option<Session>, q: PlayRequest, i: nat)
    requires ClientInv(c)
    ensures Running(Play(c, q).0, i) <==>
            if StateOf(c) == Init || q.urlCode != OK then Running(c, i)
            else if c.value.state == Ready && Play(c, q).1 != OK then Running(c, i)
            else if c.value.state == Playing && !q.vlc then Running(c, i)
            else Play(c, q).1 == OK && i < |c.value.rtps| && !c.value.rtps[0].multicast
  {
    if Play(c, q).1 == OK {
      PlayStarts(c, q);
      if c.value.state == Ready {
        ReadyStopped(c.value, i);
      }
    } else {
      PlayFails(c, q);
    }
  }

  lemma PauseRunning(c: Option<Session>, urlCode: nat, now: real, i: nat)
    requires ClientInv(c)
    ensures Running(Pause(c, urlCode, now).0, i) <==> Running(c, i) && !(urlCode == OK && StateOf(c) == Playing)
  {
    PauseAnswered(c, urlCode, now);
  }

  /** In every reachable state, the i-th writer runs if and only if it was resumed by the last PLAY
      that could, and has since neither been paused nor fired for the last time. */
  lemma {:induction false} RunningIff(es: seq<Event>, i: nat)
    requires Runs(None, es)
    ensures Running(Run(None, es), i) <==> Resumed(es, i)
    decreases |es|
  {
    if es != [] {
      var k := |es| - 1;
      var before := Run(None, es[..k]);
      RunningIff(es[..k], i);
      match es[k]
      case EPlay(q) => PlayRunning(before, q, i);
      case EPause(urlCode, now) => PauseRunning(before, urlCode, now, i);
      case ETeardown(urlCode) => TeardownAnswered(before, urlCode);
      case EFire(j, rearmed) => FireChanges(before.value, j, rearmed);
      case ESetup(q) => SetupKeepsRunning(before, q, i);
    }
  }
}
