/**
  The session of a client: SETUP, PLAY, PAUSE and TEARDOWN (rtsp_method_*.c, rtsp_utils.c), the
  RTP writers of its tracks (rtp.c) and the list of ranges to play.

  The RTP sessions point at a range of the list; ranges have explicit addresses, and a new range
  may get the address of one that was freed.
  */
module RtspSession {
  import opened Common
  import RangeParser

  type Addr = nat
  type Range = RangeParser.Range

  datatype State = Init | Ready | Playing

  /** What a session uses of a resource and its demuxer. */
  datatype Resource = Resource(tracks: set<string>, seekable: bool, duration: real)

  datatype RangeNode = RangeNode(addr: Addr, range: Range)

  /** An RTP session: whether its writer timer runs, and the range it was resumed with. */
  datatype Rtp = Rtp(multicast: bool, running: bool, range: Option<Addr>)

  datatype Session = Session(
    state: State,
    started: bool,
    rtps: seq<Rtp>,
    resource: Option<Resource>,
    resourceUri: Option<string>,
    playList: seq<RangeNode>)

  const NewSession := Session(Init, false, [], None, None, [])

  // Response codes (rfc822proto-constants.h).
  const OK: nat := 200
  const NOT_FOUND: nat := 404
  const INVALID_STATE: nat := 455
  const HEADER_NOT_VALID: nat := 456
  const INVALID_RANGE: nat := 457
  const AGGREGATE_ONLY: nat := 460
  const UNSUPPORTED_TRANSPORT: nat := 461
  const NOT_IMPLEMENTED: nat := 501

  /** The mark of a time that is not known. */
  const UNSET: real := -0.1

  const DefaultRange := RangeParser.Range(0.0, UNSET, UNSET)

  predicate LiveRange(s: Session, a: Addr) {
    exists i :: 0 <= i < |s.playList| && s.playList[i].addr == a
  }

  // ---------------------------------------------------------------- PAUSE

  function Stopped(rtps: seq<Rtp>): (r: seq<Rtp>)
    ensures |r| == |rtps|
    ensures forall i :: 0 <= i < |r| ==> r[i] == rtps[i].(running := false)
  {
    seq(|rtps|, i requires 0 <= i < |rtps| => rtps[i].(running := false))
  }

  function SetHead(s: Session, range: Range): Session
    requires s.playList != []
  {
    s.(playList := s.playList[0 := s.playList[0].(range := range)])
  }

  /** rtsp_do_pause: the pause point is recorded in the range that is being played. */
  function DoPause(s: Session, now: real): Session
    requires s.playList != []
  {
    var r := s.playList[0].range;
    SetHead(s, r.(begin := r.begin + (now - r.playback), playback := UNSET))
      .(rtps := Stopped(s.rtps), state := Ready)
  }

  // ---------------------------------------------------------------- PLAY

  /** A PLAY request: the Range header if there is one, whether the user agent is the one that
      seeks without pausing, what the demuxer makes of a seek, the clocks, and the address that
      the allocator gives to a new range. */
  datatype PlayRequest = PlayRequest(
    urlCode: nat, header: Option<seq<int>>, vlc: bool, seekOk: bool, now: real, stamp: real, addr: Addr)

  /** The range that a request asks for, completed from the resource and the clock. */
  function Completed(r: Range, resource: Resource, now: real): Range {
    r.(end := if r.end < 0.0 || r.end > resource.duration then resource.duration else r.end,
       playback := if r.playback < 0.0 then now else r.playback)
  }

  /** parse_range_header */
  function ParseRangeHeader(s: Session, q: PlayRequest): (Session, nat)
    requires s.resource.Some?
  {
    var resource := s.resource.value;
    if q.header.None? && s.playList != [] then
      (SetHead(s, s.playList[0].range.(playback := q.now)), OK)
    else
      var parsed := if q.header.None? then RangeParser.Parsed(true, DefaultRange)
                    else RangeParser.Parse(q.header.value, DefaultRange, q.stamp);
      var r := parsed.range;
      if !parsed.ok then (s, NOT_IMPLEMENTED)
      else if q.header.Some? && !resource.seekable && r.begin != 0.0 && r.end != UNSET then (s, HEADER_NOT_VALID)
      else
        var kept := if s.state == Playing then s.playList else [];
        (s.(playList := kept + [RangeNode(q.addr, Completed(r, resource, q.now))]), OK)
  }

  function Resumed(rtps: seq<Rtp>, a: Addr): (r: seq<Rtp>)
    ensures |r| == |rtps|
    ensures forall i :: 0 <= i < |r| ==> r[i] == rtps[i].(running := true, range := Some(a))
  {
    seq(|rtps|, i requires 0 <= i < |rtps| => rtps[i].(running := true, range := Some(a)))
  }

  /** do_play */
  function DoPlay(s: Session, seekOk: bool): (Session, nat)
    requires s.resource.Some? && s.playList != []
  {
    if s.resource.value.seekable && !seekOk then (s, INVALID_RANGE)
    else
      var t := s.(state := Playing);
      if t.rtps != [] && t.rtps[0].multicast then (t, OK)
      else (t.(started := true, rtps := Resumed(t.rtps, s.playList[0].addr)), OK)
  }

  function StateOf(c: Option<Session>): State {
    if c.Some? then c.value.state else Init
  }

  /** RTSP_play */
  function Play(c: Option<Session>, q: PlayRequest): (Option<Session>, nat)
    requires c.Some? ==> Inv(c.value)
  {
    if StateOf(c) == Init then (c, INVALID_STATE)
    else if q.urlCode != OK then (c, q.urlCode)
    else
      var s := if c.value.state == Playing && q.vlc then DoPause(c.value, q.now) else c.value;
      var (t, code) := ParseRangeHeader(s, q);
      if code != OK then (Some(t), code)
      else if t.state == Playing then (Some(t), OK)
      else
        var (u, code') := DoPlay(t, q.seekOk);
        (Some(u), code')
  }

  /** RTSP_pause */
  function Pause(c: Option<Session>, urlCode: nat, now: real): (Option<Session>, nat)
    requires c.Some? ==> Inv(c.value)
  {
    if StateOf(c) == Init || StateOf(c) == Ready then (c, INVALID_STATE)
    else if urlCode != OK then (c, urlCode)
    else (Some(DoPause(c.value, now)), OK)
  }

  /** The PLAY request gets as far as seeking in the resource. */
  predicate Seeks(c: Option<Session>, q: PlayRequest)
    requires c.Some? ==> Inv(c.value)
  {
    && StateOf(c) != Init && q.urlCode == OK
    && var s := if c.value.state == Playing && q.vlc then DoPause(c.value, q.now) else c.value;
       var (t, code) := ParseRangeHeader(s, q);
       code == OK && t.state != Playing && t.resource.Some? && t.resource.value.seekable
  }

  /** A PLAY that succeeds has sought if and only if the resource can seek and the session was not
      playing, or was paused by this request. */
  lemma SeeksIff(c: Option<Session>, q: PlayRequest)
    requires (c.Some? ==> Inv(c.value)) && Play(c, q).1 == OK
    ensures c.Some? && c.value.resource.Some?
    ensures Seeks(c, q) <==> c.value.resource.value.seekable && (c.value.state == Ready || q.vlc)
  {
  }

  // ---------------------------------------------------------------- SETUP and TEARDOWN

  /** Where the last slash of a string is, or -1. */
  function LastSlash(text: string): (i: int)
    ensures -1 <= i < |text|
    ensures i >= 0 ==> text[i] == '/'
    ensures forall j :: i < j < |text| ==> text[j] != '/'
  {
    if text == [] then -1
    else if text[|text| - 1] == '/' then |text| - 1
    else LastSlash(text[..|text| - 1])
  }

  /** feng_str_is_unreserved */
  predicate Unreserved(text: string) {
    forall i :: 0 <= i < |text| ==>
      '0' <= text[i] <= '9' || 'a' <= text[i] <= 'z' || 'A' <= text[i] <= 'Z' || text[i] in "-._~"
  }

  /** A SETUP request: the requested target, what opening its resource gives, and the RTP session
      that the transports lead to (multicast or not), if any. */
  datatype SetupRequest = SetupRequest(
    urlCode: nat, transports: bool, target: string, found: Option<Resource>, rtp: Option<bool>)

  /** The first half of select_requested_track: the session has its resource and the name of the
      track is known, or the request fails. */
  function SelectResource(s: Session, q: SetupRequest): (Session, nat, string) {
    if s.resource.None? then
      var i := LastSlash(q.target);
      if i < 0 then (s, AGGREGATE_ONLY, "")
      else if q.found.None? then (s.(resourceUri := None), NOT_FOUND, "")
      else (s.(resource := q.found, resourceUri := Some(q.target[..i])), OK, q.target[i + 1..])
    else
      var uri := if s.resourceUri.Some? then s.resourceUri.value else "";
      if |q.target| < |uri| + 2 || q.target[..|uri|] != uri || q.target[|uri|] != '/' then (s, AGGREGATE_ONLY, "")
      else (s, OK, q.target[|uri| + 1..])
  }

  /** select_requested_track */
  function SelectTrack(s: Session, q: SetupRequest): (Session, nat) {
    var (t, code, track) := SelectResource(s, q);
    if code != OK then (t, code)
    else if !Unreserved(track) then (t, AGGREGATE_ONLY)
    else if t.resource.None? || track !in t.resource.value.tracks then (t, NOT_FOUND)
    else (t, OK)
  }

  /** RTSP_setup */
  function Setup(c: Option<Session>, q: SetupRequest): (Option<Session>, nat) {
    if q.urlCode != OK then (c, q.urlCode)
    else if !q.transports then (c, UNSUPPORTED_TRANSPORT)
    else
      var s := if c.Some? then c.value else NewSession;
      var (t, code) := SelectTrack(s, q);
      if code != OK then (Some(t), code)
      else if q.rtp.None? then (Some(t), UNSUPPORTED_TRANSPORT)
      else
        (Some(t.(rtps := t.rtps + [Rtp(q.rtp.value, false, None)],
                 state := if t.state == Init then Ready else t.state)), OK)
  }

  /** RTSP_teardown */
  function Teardown(c: Option<Session>, urlCode: nat): (Option<Session>, nat) {
    if urlCode != OK then (c, urlCode) else (None, OK)
  }

  /** The writer timer of an RTP session fires and is armed again or not. */
  function Fired(s: Session, i: nat, rearmed: bool): Session
    requires i < |s.rtps|
  {
    s.(rtps := s.rtps[i := s.rtps[i].(running := s.rtps[i].running && rearmed)])
  }

  // ---------------------------------------------------------------- the invariant

  /** A running writer means that the session plays, and holds the range that is now at the head
      of the list; a session that is ready has a resource and a track; one that plays has a range;
      the resource and its address are known together. */
  ghost predicate Inv(s: Session) {
    && (forall i :: 0 <= i < |s.rtps| && s.rtps[i].running ==>
          s.state == Playing && s.playList != [] && s.rtps[i].range == Some(s.playList[0].addr))
    && (s.state != Init ==> s.resource.Some? && s.rtps != [])
    && (s.state == Playing ==> s.playList != [])
    && (s.resource.Some? <==> s.resourceUri.Some?)
    && (forall i, j :: 0 <= i < j < |s.playList| ==> s.playList[i].addr != s.playList[j].addr)
  }

  ghost predicate ClientInv(c: Option<Session>) {
    c.Some? ==> Inv(c.value)
  }

  datatype Event =
    | ESetup(setup: SetupRequest)
    | EPlay(play: PlayRequest)
    | EPause(urlCode: nat, now: real)
    | ETeardown(urlCode: nat)
    | EFire(i: nat, rearmed: bool)

  /** A new range is not at the address of a live one; only running timers fire. */
  predicate Allowed(c: Option<Session>, e: Event) {
    match e
    case EPlay(q) => c.Some? ==> !LiveRange(c.value, q.addr)
    case EFire(i, _) => c.Some? && i < |c.value.rtps| && c.value.rtps[i].running
    case _ => true
  }

  ghost function Step(c: Option<Session>, e: Event): Option<Session>
    requires ClientInv(c) && Allowed(c, e)
  {
    match e
    case ESetup(q) => Setup(c, q).0
    case EPlay(q) => Play(c, q).0
    case EPause(urlCode, now) => Pause(c, urlCode, now).0
    case ETeardown(urlCode) => Teardown(c, urlCode).0
    case EFire(i, rearmed) => Some(Fired(c.value, i, rearmed))
  }

  lemma PauseKeepsInv(s: Session, now: real)
    requires Inv(s) && s.state == Playing
    ensures Inv(DoPause(s, now)) && DoPause(s, now).state == Ready
    ensures forall a :: LiveRange(DoPause(s, now), a) ==> LiveRange(s, a)
  {
  }

  lemma ParseKeepsInv(s: Session, q: PlayRequest)
    requires Inv(s) && s.state != Init && !LiveRange(s, q.addr)
    ensures Inv(ParseRangeHeader(s, q).0) && ParseRangeHeader(s, q).0.state == s.state
    ensures ParseRangeHeader(s, q).1 == OK ==> ParseRangeHeader(s, q).0.playList != []
  {
  }

  lemma PlayKeepsInv(s: Session, seekOk: bool)
    requires Inv(s) && s.state == Ready && s.playList != []
    ensures Inv(DoPlay(s, seekOk).0)
  {
  }

  lemma SelectKeepsInv(s: Session, q: SetupRequest)
    requires Inv(s)
    ensures Inv(SelectTrack(s, q).0) && (SelectTrack(s, q).1 == OK ==> SelectTrack(s, q).0.resource.Some?)
  {
  }

  lemma SetupKeepsInv(c: Option<Session>, q: SetupRequest)
    requires ClientInv(c)
    ensures ClientInv(Setup(c, q).0)
  {
    SelectKeepsInv(if c.Some? then c.value else NewSession, q);
  }

  lemma StepKeepsInv(c: Option<Session>, e: Event)
    requires ClientInv(c) && Allowed(c, e)
    ensures ClientInv(Step(c, e))
  {
    match e
    case ESetup(q) => SetupKeepsInv(c, q);
    case EPlay(q) =>
      if StateOf(c) != Init && q.urlCode == OK {
        var s := c.value;
        if s.state == Playing && q.vlc {
          PauseKeepsInv(s, q.now);
          s := DoPause(s, q.now);
        }
        ParseKeepsInv(s, q);
        var (t, code) := ParseRangeHeader(s, q);
        if code == OK && t.state != Playing {
          PlayKeepsInv(t, q.seekOk);
        }
      }
    case EPause(urlCode, now) =>
      if StateOf(c) == Playing {
        PauseKeepsInv(c.value, now);
      }
    case ETeardown(_) =>
    case EFire(i, rearmed) =>
  }

  // ---------------------------------------------------------------- runs

  ghost predicate Runs(c: Option<Session>, es: seq<Event>)
    requires ClientInv(c)
    decreases |es|, 0
  {
    es == [] || (var k := |es| - 1; Runs(c, es[..k]) && Allowed(Run(c, es[..k]), es[k]))
  }

  /** In every state that any sequence of requests and timer events leads to, the invariant holds. */
  ghost function Run(c: Option<Session>, es: seq<Event>): (r: Option<Session>)
    requires ClientInv(c) && Runs(c, es)
    ensures ClientInv(r)
    decreases |es|, 1
  {
    if es == [] then c
    else
      var k := |es| - 1;
      StepKeepsInv(Run(c, es[..k]), es[k]);
      Step(Run(c, es[..k]), es[k])
  }

  /** Whenever a writer timer is running, the range it will read is live and at the head. */
  lemma WriterHoldsLiveHead(es: seq<Event>)
    requires Runs(None, es)
    ensures var c := Run(None, es);
            c.Some? ==> forall i :: 0 <= i < |c.value.rtps| && c.value.rtps[i].running ==> HoldsLiveHead(c.value, i)
  {
    var c := Run(None, es);
    assert ClientInv(c);
    if c.Some? {
      forall i | 0 <= i < |c.value.rtps| && c.value.rtps[i].running ensures HoldsLiveHead(c.value, i) {
        assert c.value.playList[0].addr == c.value.rtps[i].range.value;
      }
    }
  }

  predicate HoldsLiveHead(s: Session, i: nat)
    requires i < |s.rtps|
  {
    && s.state == Playing && s.resource.Some? && s.resourceUri.Some? && s.playList != []
    && s.rtps[i].range == Some(s.playList[0].addr) && LiveRange(s, s.playList[0].addr)
  }

  // ---------------------------------------------------------------- the media clock

  /** Bookkeeping beside the session: where the range began, the time spent playing in intervals
      that are over, the time forgotten by PLAY requests while playing, and when the current
      interval began. */
  datatype Ledger = Ledger(origin: real, played: real, lost: real, since: real)

  /** Requests that keep the range at the head of the list. */
  predicate KeepsRange(e: Event) {
    match e
    case EPlay(q) => q.header.None?
    case ETeardown(_) => false
    case _ => true
  }

  /** Another PLAY while the session plays. */
  predicate Replays(s: Session, e: Event) {
    e.EPlay? && e.play.urlCode == OK && s.state == Playing && !e.play.vlc
  }

  function Booked(l: Ledger, s: Session, e: Event): Ledger
    requires s.playList != [] && s.resource.Some?
  {
    match e
    case EPause(urlCode, now) =>
      if s.state == Playing && urlCode == OK then l.(played := l.played + (now - l.since)) else l
    case EPlay(q) =>
      if s.state == Init || q.urlCode != OK then l
      else if Replays(s, e) then l.(lost := l.lost + (q.now - s.playList[0].range.playback))
      else
        var m := if s.state == Playing then l.(played := l.played + (q.now - l.since)) else l;
        if s.resource.value.seekable && !q.seekOk then m else m.(since := q.now)
    case _ => l
  }

  /** The recorded begin is the original one plus the time spent playing, less what was lost. */
  predicate Balanced(s: Session, l: Ledger) {
    && s.state != Init && s.playList != [] && s.resource.Some?
    && s.playList[0].range.begin + l.lost ==
       l.origin + l.played + (if s.state == Playing then s.playList[0].range.playback - l.since else 0.0)
  }

  lemma SetupKeepsRange(s: Session, q: SetupRequest)
    requires Inv(s) && s.state != Init
    ensures var t := Setup(Some(s), q).0;
            t.Some? && t.value.state == s.state && t.value.playList == s.playList && t.value.resource == s.resource
  {
  }

  lemma BookedStep(s: Session, l: Ledger, e: Event)
    requires Inv(s) && Balanced(s, l) && KeepsRange(e) && Allowed(Some(s), e)
    ensures Step(Some(s), e).Some? && Balanced(Step(Some(s), e).value, Booked(l, s, e))
    ensures Step(Some(s), e).value.playList[0].addr == s.playList[0].addr
  {
    StepKeepsInv(Some(s), e);
    match e
    case ESetup(q) => SetupKeepsRange(s, q);
    case EPlay(q) => BookedPlay(s, l, q);
    case EPause(urlCode, now) =>
    case ETeardown(_) =>
    case EFire(i, rearmed) =>
  }

  lemma BookedPlay(s: Session, l: Ledger, q: PlayRequest)
    requires Inv(s) && Balanced(s, l) && q.header.None?
    ensures var t := Play(Some(s), q).0;
            && t.Some? && Balanced(t.value, Booked(l, s, EPlay(q)))
            && t.value.playList[0].addr == s.playList[0].addr
  {
  }

  ghost function Books(s: Session, l: Ledger, es: seq<Event>): (r: Ledger)
    requires Inv(s) && Balanced(s, l) && Runs(Some(s), es)
    requires forall i :: 0 <= i < |es| ==> KeepsRange(es[i])
    ensures Run(Some(s), es).Some? && Balanced(Run(Some(s), es).value, r)
    ensures Run(Some(s), es).value.playList[0].addr == s.playList[0].addr
    decreases |es|
  {
    if es == [] then l
    else
      var k := |es| - 1;
      var m := Books(s, l, es[..k]);
      BookedStep(Run(Some(s), es[..k]).value, m, es[k]);
      Booked(m, Run(Some(s), es[..k]).value, es[k])
  }

  lemma {:induction false} BooksKeepOrigin(s: Session, l: Ledger, es: seq<Event>)
    requires Inv(s) && Balanced(s, l) && Runs(Some(s), es)
    requires forall i :: 0 <= i < |es| ==> KeepsRange(es[i])
    ensures Books(s, l, es).origin == l.origin
    decreases |es|
  {
    if es != [] {
      BooksKeepOrigin(s, l, es[..|es| - 1]);
    }
  }

  /** No PLAY comes while the session plays. */
  ghost predicate NoReplays(c: Option<Session>, es: seq<Event>)
    requires ClientInv(c) && Runs(c, es)
    decreases |es|
  {
    es == [] ||
    (var k := |es| - 1;
     NoReplays(c, es[..k]) && (Run(c, es[..k]).Some? ==> !Replays(Run(c, es[..k]).value, es[k])))
  }

  /** Time has passed whenever a PLAY comes while the session plays. */
  ghost predicate Advancing(c: Option<Session>, es: seq<Event>)
    requires ClientInv(c) && Runs(c, es)
    decreases |es|
  {
    es == [] ||
    (var k := |es| - 1;
     && Advancing(c, es[..k])
     && (Run(c, es[..k]).Some? && Replays(Run(c, es[..k]).value, es[k]) ==>
           es[k].play.now > Run(c, es[..k]).value.playList[0].range.playback))
  }

  /** Time is lost exactly when a PLAY comes while the session plays. */
  lemma {:induction false} LostIff(s: Session, l: Ledger, es: seq<Event>)
    requires Inv(s) && Balanced(s, l) && Runs(Some(s), es) && Advancing(Some(s), es)
    requires forall i :: 0 <= i < |es| ==> KeepsRange(es[i])
    ensures Books(s, l, es).lost >= l.lost
    ensures Books(s, l, es).lost == l.lost <==> NoReplays(Some(s), es)
    decreases |es|
  {
    if es != [] {
      LostIff(s, l, es[..|es| - 1]);
    }
  }

  /** Over any run of PAUSE, Range-less PLAY, SETUP and timer events that ends paused, the recorded
      begin is the original begin plus the time spent playing, exactly when no PLAY came while the
      session was playing.  A session that plays at first has done so since `since`. */
  lemma {:induction false} ClockLaw(s: Session, es: seq<Event>, since: real)
    requires Inv(s) && s.state != Init && s.playList != [] && (s.state == Playing ==> since == s.playList[0].range.playback)
    requires Runs(Some(s), es) && Advancing(Some(s), es)
    requires forall i :: 0 <= i < |es| ==> KeepsRange(es[i])
    ensures Run(Some(s), es).Some? && Run(Some(s), es).value.playList != []
    ensures var l := Books(s, Ledger(s.playList[0].range.begin, 0.0, 0.0, since), es);
            var t := Run(Some(s), es).value;
            t.state == Ready ==>
              && t.playList[0].range.begin == s.playList[0].range.begin + l.played - l.lost
              && (t.playList[0].range.begin == s.playList[0].range.begin + l.played <==> NoReplays(Some(s), es))
  {
    var start := Ledger(s.playList[0].range.begin, 0.0, 0.0, since);
    var l := Books(s, start, es);
    BooksKeepOrigin(s, start, es);
    LostIff(s, start, es);
  }

  /** The range that a first PLAY asks for. */
  function Requested(q: PlayRequest): Range {
    if q.header.None? then DefaultRange else RangeParser.Parse(q.header.value, DefaultRange, q.stamp).range
  }

  /** The first PLAY of a session that has just been set up, with or without a Range header, plays
      the requested range from now on, unless the header names another time. */
  lemma FirstPlay(s: Session, q: PlayRequest)
    requires Inv(s) && s.state == Ready && s.playList == [] && Play(Some(s), q).1 == OK
    ensures var t := Play(Some(s), q).0;
            && t.Some? && t.value.state == Playing && |t.value.playList| == 1
            && t.value.playList[0].range.begin == Requested(q).begin
            && s.resource.Some?
            && t.value.playList[0].range.end ==
               (if 0.0 <= Requested(q).end <= s.resource.value.duration then Requested(q).end else s.resource.value.duration)
            && t.value.playList[0].range.playback == if Requested(q).playback < 0.0 then q.now else Requested(q).playback
  {
  }

  /** The law from the first PLAY of a session on: whenever the session is paused, its recorded begin
      is the requested begin plus the time spent playing, exactly when no PLAY came while it was
      playing. */
  lemma {:induction false} ClockFromFirstPlay(s: Session, q: PlayRequest, es: seq<Event>)
    requires Inv(s) && s.state == Ready && s.playList == [] && Play(Some(s), q).1 == OK
    requires ClientInv(Play(Some(s), q).0) && Runs(Play(Some(s), q).0, es) && Advancing(Play(Some(s), q).0, es)
    requires forall i :: 0 <= i < |es| ==> KeepsRange(es[i])
    ensures Play(Some(s), q).0.Some? && Run(Play(Some(s), q).0, es).Some?
    ensures var t, u := Play(Some(s), q).0.value, Run(Play(Some(s), q).0, es).value;
            && t.playList != [] && t.resource.Some? && t.state == Playing && u.playList != []
            && var start := Ledger(Requested(q).begin, 0.0, 0.0, t.playList[0].range.playback);
            && Balanced(t, start)
            && var l := Books(t, start, es);
            u.state == Ready ==>
              && u.playList[0].range.begin == Requested(q).begin + l.played - l.lost
              && (u.playList[0].range.begin == Requested(q).begin + l.played <==> NoReplays(Some(t), es))
  {
    FirstPlay(s, q);
    var t := Play(Some(s), q).0.value;
    ClockLaw(t, es, t.playList[0].range.playback);
  }

  /** A PLAY while playing restarts the clock without moving the begin: what was played so far in
      this interval is forgotten. */
  lemma ReplayLosesTime(s: Session, q: PlayRequest, l: Ledger)
    requires Inv(s) && Balanced(s, l) && q.header.None? && Replays(s, EPlay(q))
    ensures var t := Play(Some(s), q).0;
            t.Some? && t.value.playList[0].range == s.playList[0].range.(playback := q.now)
    ensures Booked(l, s, EPlay(q)).lost == l.lost + (q.now - s.playList[0].range.playback)
  {
  }

  /** A Range-less PLAY whose seek fails leaves the session ready and the begin as it was. */
  lemma FailedSeekKeepsBegin(s: Session, q: PlayRequest)
    requires Inv(s) && s.state == Ready && s.playList != [] && q.urlCode == OK && q.header.None?
    requires s.resource.value.seekable && !q.seekOk
    ensures var (t, code) := Play(Some(s), q);
            && code == INVALID_RANGE && t.Some? && t.value.state == Ready
            && t.value.rtps == s.rtps && t.value.playList[0].range.begin == s.playList[0].range.begin
  {
  }

  // ---------------------------------------------------------------- requests

  /** A successful SETUP was for a track of the resource of the session, named by the address of
      the resource, a slash and the unreserved name of the track; a resource once chosen stays. */
  lemma SetupNamesTrack(c: Option<Session>, q: SetupRequest)
    requires ClientInv(c) && Setup(c, q).1 == OK
    ensures var t := Setup(c, q).0;
            && t.Some? && t.value.resource.Some? && t.value.resourceUri.Some?
            && var uri := t.value.resourceUri.value;
            && |uri| < |q.target| && q.target[..|uri|] == uri && q.target[|uri|] == '/'
            && q.target[|uri| + 1..] in t.value.resource.value.tracks && Unreserved(q.target[|uri| + 1..])
    ensures c.Some? && c.value.resource.Some? ==>
              && Setup(c, q).0.value.resource == c.value.resource
              && Setup(c, q).0.value.resourceUri == c.value.resourceUri
  {
  }

  /** A Range header of npt times, each of which may be missing. */
  function NptHeader(begin: Option<RangeParser.Time>, end: Option<RangeParser.Time>): seq<int> {
    RangeParser.NPT + ((if begin.Some? then RangeParser.Text(begin.value, 46) else []) + [45])
    + if end.Some? then RangeParser.Text(end.value, 46) else []
  }

  predicate ProperIfAny(t: Option<RangeParser.Time>) {
    t.Some? ==> RangeParser.Proper(t.value)
  }

  lemma ParseNptHeader(begin: Option<RangeParser.Time>, end: Option<RangeParser.Time>, stamp: real)
    requires ProperIfAny(begin) && ProperIfAny(end)
    ensures RangeParser.Parse(NptHeader(begin, end), DefaultRange, stamp) ==
            RangeParser.Parsed(
              begin.Some? || end.Some?,
              DefaultRange.(begin := if begin.Some? then RangeParser.Value(begin.value) else 0.0,
                            end := if end.Some? then RangeParser.Value(end.value) else UNSET))
  {
    var first := RangeParser.NPT + ((if begin.Some? then RangeParser.Text(begin.value, 46) else []) + [45]);
    if begin.Some? && end.Some? {
      RangeParser.ParseClosed(DefaultRange, begin.value, 46, end.value, 46, stamp);
    } else if begin.Some? {
      assert NptHeader(begin, end) == first;
      RangeParser.ParseOpen(DefaultRange, begin.value, 46, stamp);
    } else {
      assert [] + [45] == [45];
      if end.Some? {
        RangeParser.ParseEndOnly(DefaultRange, end.value, 46, stamp);
      } else {
        assert NptHeader(begin, end) == RangeParser.NPT + [45];
        RangeParser.ParseNeither(DefaultRange, stamp);
      }
    }
  }

  /** On a resource that cannot seek, a header is refused as not valid if and only if it has an end
      and a begin other than zero.  The documented rule, that anything but "0-" is refused, is met
      exactly by the headers that have both an end and such a begin, or neither. */
  lemma LiveRangeRule(s: Session, q: PlayRequest, begin: Option<RangeParser.Time>, end: Option<RangeParser.Time>)
    requires Inv(s) && s.state != Init && !s.resource.value.seekable
    requires ProperIfAny(begin) && ProperIfAny(end) && (begin.Some? || end.Some?) && q.header == Some(NptHeader(begin, end))
    ensures var later := begin.Some? && RangeParser.Value(begin.value) != 0.0;
            var refused := ParseRangeHeader(s, q).1 == HEADER_NOT_VALID;
            && (refused <==> later && end.Some?)
            && (!refused ==> ParseRangeHeader(s, q).1 == OK)
            && ((refused <==> later || end.Some?) <==> (later <==> end.Some?))
  {
    ParseNptHeader(begin, end, q.stamp);
    if end.Some? {
      RangeParser.ValueNotNegative(end.value);
    }
  }

  /** "npt=5-" is accepted for such a resource. */
  lemma LiveAcceptsOffset(s: Session, q: PlayRequest)
    requires Inv(s) && s.state == Ready && !s.resource.value.seekable
    requires q.header == Some(RangeParser.NPT + ([53] + [45]))
    ensures ParseRangeHeader(s, q).1 == OK
    ensures ParseRangeHeader(s, q).0.playList[0].range.begin == 5.0
  {
    var five := RangeParser.Sec([53], []);
    assert [53][1..] == [];
    assert RangeParser.Accumulate(0, [53]) == 5 && RangeParser.Pow10(0) == 1;
    assert RangeParser.Value(five) == 5.0;
    RangeParser.ParseOpen(DefaultRange, five, 46, q.stamp);
  }

  // ---------------------------------------------------------------- the code

  /** struct RTSP_session */
  class SessionObject {
    var state: State
    var started: bool
    var rtps: seq<Rtp>
    var resource: Option<Resource>
    var resourceUri: Option<string>
    var playList: seq<RangeNode>

    function Snap(): Session
      reads this
    {
      Session(state, started, rtps, resource, resourceUri, playList)
    }

    /** rtsp_session_new */
    constructor ()
      ensures Snap() == NewSession
    {
      state, started, rtps, resource, resourceUri, playList := Init, false, [], None, None, [];
    }

    /** rtp_session_gslist_pause */
    method StopWriters()
      modifies `rtps
      ensures rtps == Stopped(old(rtps))
    {
      var i := 0;
      while i < |rtps|
        invariant 0 <= i <= |rtps| == |old(rtps)|
        invariant forall j :: 0 <= j < i ==> rtps[j] == old(rtps)[j].(running := false)
        invariant forall j :: i <= j < |rtps| ==> rtps[j] == old(rtps)[j]
      {
        rtps := rtps[i := rtps[i].(running := false)];
        i := i + 1;
      }
    }

    /** rtp_session_gslist_resume */
    method StartWriters(a: Addr)
      modifies `rtps
      ensures rtps == Resumed(old(rtps), a)
    {
      var i := 0;
      while i < |rtps|
        invariant 0 <= i <= |rtps| == |old(rtps)|
        invariant forall j :: 0 <= j < i ==> rtps[j] == old(rtps)[j].(running := true, range := Some(a))
        invariant forall j :: i <= j < |rtps| ==> rtps[j] == old(rtps)[j]
      {
        rtps := rtps[i := rtps[i].(running := true, range := Some(a))];
        i := i + 1;
      }
    }

    /** rtsp_do_pause */
    method PauseNow(now: real)
      requires playList != []
      modifies this
      ensures Snap() == DoPause(old(Snap()), now)
    {
      var r := playList[0].range;
      r := r.(begin := r.begin + (now - r.playback));
      r := r.(playback := UNSET);
      playList := playList[0 := playList[0].(range := r)];
      StopWriters();
      state := Ready;
    }

    /** parse_range_header */
    method TakeRange(q: PlayRequest) returns (code: nat)
      requires resource.Some?
      modifies this
      ensures (Snap(), code) == ParseRangeHeader(old(Snap()), q)
    {
      if q.header.None? && playList != [] {
        playList := playList[0 := playList[0].(range := playList[0].range.(playback := q.now))];
        return OK;
      }
      var r := DefaultRange;
      if q.header.Some? {
        var parsed := RangeParser.ParseHeader(q.header.value, r, q.stamp);
        if !parsed.ok {
          return NOT_IMPLEMENTED;
        }
        r := parsed.range;
        if !resource.value.seekable && r.begin != 0.0 && r.end != UNSET {
          return HEADER_NOT_VALID;
        }
      }
      if r.end < 0.0 || r.end > resource.value.duration {
        r := r.(end := resource.value.duration);
      }
      if r.playback < 0.0 {
        r := r.(playback := q.now);
      }
      if state != Playing {
        playList := [];
      }
      playList := playList + [RangeNode(q.addr, r)];
      return OK;
    }

    /** do_play */
    method PlayNow(seekOk: bool) returns (code: nat)
      requires resource.Some? && playList != []
      modifies this
      ensures (Snap(), code) == DoPlay(old(Snap()), seekOk)
    {
      if resource.value.seekable && !seekOk {
        return INVALID_RANGE;
      }
      state := Playing;
      if rtps != [] && rtps[0].multicast {
        return OK;
      }
      started := true;
      StartWriters(playList[0].addr);
      return OK;
    }

    /** rtp_write_cb, as far as the session goes: the range it reads is live. */
    method TimerFired(i: nat, rearmed: bool) returns (range: Range)
      requires Inv(Snap()) && i < |rtps| && rtps[i].running
      modifies `rtps
      ensures Snap() == Fired(old(Snap()), i, rearmed) && Inv(Snap())
      ensures range == playList[0].range && rtps[i].range == Some(playList[0].addr)
    {
      range := playList[0].range;
      rtps := rtps[i := rtps[i].(running := rearmed)];
    }

    /** select_requested_track */
    method ChooseTrack(q: SetupRequest) returns (code: nat)
      requires resource.Some? <==> resourceUri.Some?
      modifies this
      ensures (Snap(), code) == SelectTrack(old(Snap()), q)
    {
      var track;
      if resource.None? {
        var i := LastSlash(q.target);
        if i < 0 {
          return AGGREGATE_ONLY;
        }
        track := q.target[i + 1..];
        resourceUri := Some(q.target[..i]);
        resource := q.found;
        if resource.None? {
          resourceUri := None;
          return NOT_FOUND;
        }
      } else {
        var n := |resourceUri.value|;
        if |q.target| < n + 2 || q.target[..n] != resourceUri.value || q.target[n] != '/' {
          return AGGREGATE_ONLY;
        }
        track := q.target[n + 1..];
      }
      if !Unreserved(track) {
        return AGGREGATE_ONLY;
      }
      code := if track in resource.value.tracks then OK else NOT_FOUND;
    }
  }

  /** struct RTSP_Client, as far as its session goes. */
  class Client {
    var session: SessionObject?

    function View(): Option<Session>
      reads this, session
    {
      if session == null then None else Some(session.Snap())
    }

    constructor ()
      ensures View() == None
    {
      session := null;
    }

    /** RTSP_setup */
    method HandleSetup(q: SetupRequest) returns (code: nat)
      requires ClientInv(View())
      modifies this, session
      ensures (View(), code) == Setup(old(View()), q) && ClientInv(View())
      ensures session == old(session) || fresh(session)
    {
      SetupKeepsInv(View(), q);
      if q.urlCode != OK {
        return q.urlCode;
      }
      if !q.transports {
        return UNSUPPORTED_TRANSPORT;
      }
      if session == null {
        session := new SessionObject();
      }
      code := session.ChooseTrack(q);
      if code != OK {
        return;
      }
      if q.rtp.None? {
        return UNSUPPORTED_TRANSPORT;
      }
      session.rtps := session.rtps + [Rtp(q.rtp.value, false, None)];
      if session.state == Init {
        session.state := Ready;
      }
    }

    /** RTSP_play */
    method HandlePlay(q: PlayRequest) returns (code: nat)
      requires ClientInv(View()) && Allowed(View(), EPlay(q))
      modifies this, session
      ensures (View(), code) == Play(old(View()), q) && ClientInv(View()) && session == old(session)
    {
      StepKeepsInv(View(), EPlay(q));
      if session == null || session.state == Init {
        return INVALID_STATE;
      }
      if q.urlCode != OK {
        return q.urlCode;
      }
      if session.state == Playing && q.vlc {
        session.PauseNow(q.now);
      }
      code := session.TakeRange(q);
      if code != OK {
        return;
      }
      if session.state != Playing {
        code := session.PlayNow(q.seekOk);
      }
    }

    /** RTSP_pause */
    method HandlePause(urlCode: nat, now: real) returns (code: nat)
      requires ClientInv(View())
      modifies this, session
      ensures (View(), code) == Pause(old(View()), urlCode, now) && ClientInv(View()) && session == old(session)
    {
      StepKeepsInv(View(), EPause(urlCode, now));
      if session == null || session.state == Init || session.state == Ready {
        return INVALID_STATE;
      }
      if urlCode != OK {
        return urlCode;
      }
      session.PauseNow(now);
      return OK;
    }

    /** RTSP_teardown */
    method HandleTeardown(urlCode: nat) returns (code: nat)
      requires ClientInv(View())
      modifies this
      ensures (View(), code) == Teardown(old(View()), urlCode) && ClientInv(View())
      ensures session == old(session) || session == null
    {
      if urlCode != OK {
        return urlCode;
      }
      session := null;
      return OK;
    }

    /** One request or timer event, as the state machine sees it. */
    method Perform(e: Event)
      requires ClientInv(View()) && Allowed(View(), e)
      modifies this, session
      ensures View() == Step(old(View()), e) && ClientInv(View())
      ensures session == old(session) || session == null || fresh(session)
    {
      match e {
        case ESetup(q) => var _ := HandleSetup(q);
        case EPlay(q) => var _ := HandlePlay(q);
        case EPause(urlCode, now) => var _ := HandlePause(urlCode, now);
        case ETeardown(urlCode) => var _ := HandleTeardown(urlCode);
        case EFire(i, rearmed) => var _ := session.TimerFired(i, rearmed);
      }
    }
  }

  lemma RunOneMore(c: Option<Session>, es: seq<Event>, k: nat)
    requires ClientInv(c) && k < |es| && Runs(c, es[..k]) && Allowed(Run(c, es[..k]), es[k])
    ensures Runs(c, es[..k + 1]) && Run(c, es[..k + 1]) == Step(Run(c, es[..k]), es[k])
  {
    assert es[..k + 1][..k] == es[..k];
  }

  /** Every sequence of requests and timer events on a new client is a run of the state machine; it
      stops only at an event that cannot happen. */
  method Execute(es: seq<Event>) returns (c: Client, done: nat)
    ensures done <= |es| && Runs(None, es[..done]) && c.View() == Run(None, es[..done])
    ensures done < |es| ==> !Allowed(c.View(), es[done])
  {
    c := new Client();
    done := 0;
    while done < |es| && Allowed(c.View(), es[done])
      invariant done <= |es| && fresh(c) && (c.session != null ==> fresh(c.session))
      invariant Runs(None, es[..done]) && c.View() == Run(None, es[..done])
    {
      RunOneMore(None, es, done);
      c.Perform(es[done]);
      done := done + 1;
    }
  }
}
