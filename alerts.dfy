/**
 * The Frigate alert daemon of frigate/frigate-alerts/alerts.py: which MQTT
 * events become notifications, the per-camera-and-label cooldown, the
 * headers of the ntfy request, the disk check that parses `df` output
 * with its own hourly cooldown, and how commands read from ntfy are
 * recognised. The clock, the snapshot download and the `df` run are
 * parameters; the requests themselves are returned, not sent.
 */
module Alerts {
  import opened Wrappers
  import opened Text

  /** `ALERT_OBJECTS` */
  const AlertObjects: set<string> := {"person", "car", "dog", "cat"}
  /** `PET_OBJECTS` */
  const PetObjects: set<string> := {"dog", "cat"}
  /** `COOLDOWN_SECONDS`, for every label that is not a pet */
  const CooldownSeconds := 60
  /** The hour between two disk alerts. */
  const DiskCooldownSeconds := 3600
  /** `DISK_WARNING_THRESHOLD`, a percentage */
  const DiskWarningThreshold := 80

  /** The settings read from the environment. */
  datatype Config = Config(frigateUrl: string, ntfyTopic: string, petCooldown: int)

  /** `FRIGATE_URL`, `NTFY_TOPIC` and `PET_COOLDOWN_SECONDS` when the environment sets none of them. */
  const DefaultConfig := Config("http://frigate:5000", "frigate-alerts", 300)

  datatype Header = Header(name: string, value: string)

  datatype Body = Content(bytes: seq<bv8>) | Message(text: string)

  /** One `requests.post` to ntfy. */
  datatype Post = Post(url: string, body: Body, headers: seq<Header>)

  function TopicUrl(cfg: Config): string {
    "https://ntfy.sh/" + cfg.ntfyTopic
  }

  /** The value of the first header called `name`, as a dict lookup would find it. */
  function HeaderValue(headers: seq<Header>, name: string): Option<string> {
    if headers == [] then None
    else if headers[0].name == name then Some(headers[0].value)
    else HeaderValue(headers[1..], name)
  }

  // ---------------------------------------------------------------- events

  /**
   * The fields `on_message` reads from a decoded `frigate/events` payload:
   * `type`, and `label` (here `kind`), `camera` and `id` under `after`; `None` for a key
   * that is absent or null.
   */
  datatype Event = Event(eventType: Option<string>, kind: Option<string>, camera: Option<string>, id: Option<string>)

  /** What `send_notification` is called with. */
  datatype Detection = Detection(camera: string, kind: string, eventId: string)

  /** An f-string renders a missing value as `None`. */
  function Shown(v: Option<string>): string {
    if v.Some? then v.value else "None"
  }

  /**
   * `on_message`: a payload that does not decode (`None`) is dropped, and
   * so is any event that is not new, not about an alert object, or has an
   * empty or missing id.
   */
  function Dispatch(payload: Option<Event>): (r: Option<Detection>)
    ensures r.Some? <==>
      && payload.Some? && payload.value.eventType == Some("new")
      && payload.value.kind.Some? && payload.value.kind.value in AlertObjects
      && payload.value.id.Some? && payload.value.id.value != ""
    ensures r.Some? ==> r.value.kind in AlertObjects && r.value.eventId != ""
                        && r.value.camera == Shown(payload.value.camera)
  {
    if payload.None? then None
    else
      var e := payload.value;
      if e.eventType == Some("new") && e.kind.Some? && e.kind.value in AlertObjects && e.id.Some? && e.id.value != "" then
        Some(Detection(Shown(e.camera), e.kind.value, e.id.value))
      else None
  }

  // ---------------------------------------------------------------- cooldown

  /** `f"{camera}_{label}"` */
  function Key(camera: string, kind: string): string {
    camera + "_" + kind
  }

  function CooldownOf(cfg: Config, kind: string): int {
    if kind in PetObjects then cfg.petCooldown else CooldownSeconds
  }

  /** `key in last_alert and (now - last_alert[key]) < cooldown` */
  predicate Suppressed(last: map<string, real>, key: string, now: real, cooldown: int) {
    key in last && now - last[key] < cooldown as real
  }

  /** The `last_alert` dict after one call of `send_notification`. */
  function Admit(last: map<string, real>, key: string, now: real, cooldown: int): map<string, real> {
    if Suppressed(last, key, now, cooldown) then last else last[key := now]
  }

  /**
   * A suppressed call leaves the dict as it was; any other call records
   * `now` under its key. No other key changes either way.
   */
  lemma AdmitSpec(last: map<string, real>, key: string, now: real, cooldown: int)
    ensures var r := Admit(last, key, now, cooldown);
      && (Suppressed(last, key, now, cooldown) <==> key in last && last[key] > now - cooldown as real)
      && (Suppressed(last, key, now, cooldown) ==> r == last)
      && (!Suppressed(last, key, now, cooldown) ==> key in r && r[key] == now)
      && (forall k :: k != key ==> (k in r <==> k in last) && (k in last ==> r[k] == last[k]))
  {
  }

  /** A pet waits `PET_COOLDOWN_SECONDS`, anything else 60 seconds. */
  lemma CooldownSpec(cfg: Config, kind: string)
    ensures kind == "dog" || kind == "cat" ==> CooldownOf(cfg, kind) == cfg.petCooldown
    ensures kind !in PetObjects ==> CooldownOf(cfg, kind) == 60
    ensures DefaultConfig.petCooldown == 300
  {
  }

  // ---------------------------------------------------------------- a run of events

  /** An MQTT message and the time it arrives. */
  datatype Arrival = Arrival(payload: Option<Event>, now: real)

  /** A notification let through by the cooldown. */
  datatype Admitted = Admitted(key: string, kind: string, at: real)

  datatype Trace = Trace(last: map<string, real>, admitted: seq<Admitted>)

  /** The arrivals handled in order, from the dict `last`. */
  function Replay(cfg: Config, last: map<string, real>, arrivals: seq<Arrival>): Trace {
    if arrivals == [] then Trace(last, [])
    else
      var t := Replay(cfg, last, arrivals[..|arrivals| - 1]);
      Receive(cfg, t, arrivals[|arrivals| - 1])
  }

  function Receive(cfg: Config, t: Trace, a: Arrival): Trace {
    match Dispatch(a.payload)
    case None => t
    case Some(d) =>
      var key := Key(d.camera, d.kind);
      var cooldown := CooldownOf(cfg, d.kind);
      if Suppressed(t.last, key, a.now, cooldown) then t
      else Trace(Admit(t.last, key, a.now, cooldown), t.admitted + [Admitted(key, d.kind, a.now)])
  }

  predicate Ascending(arrivals: seq<Arrival>) {
    forall i, j :: 0 <= i < j < |arrivals| ==> arrivals[i].now <= arrivals[j].now
  }

  /** Every admitted notification is for an alert object and sits in the dict at its time or later. */
  ghost predicate Recorded(t: Trace) {
    forall i :: 0 <= i < |t.admitted| ==>
      t.admitted[i].kind in AlertObjects && t.admitted[i].key in t.last && t.admitted[i].at <= t.last[t.admitted[i].key]
  }

  lemma {:induction false} ReplayRecorded(cfg: Config, last: map<string, real>, arrivals: seq<Arrival>)
    requires Ascending(arrivals)
    ensures Recorded(Replay(cfg, last, arrivals))
    ensures arrivals != [] ==> forall i :: 0 <= i < |Replay(cfg, last, arrivals).admitted| ==>
      Replay(cfg, last, arrivals).admitted[i].at <= arrivals[|arrivals| - 1].now
  {
    if arrivals != [] {
      var pre := arrivals[..|arrivals| - 1];
      var a := arrivals[|arrivals| - 1];
      var t := Replay(cfg, last, pre);
      ReplayRecorded(cfg, last, pre);
      if pre != [] {
        assert pre[|pre| - 1].now <= a.now;
      }
      assert forall i :: 0 <= i < |t.admitted| ==> t.admitted[i].at <= a.now;
    }
  }

  /**
   * Only alert objects, and two notifications for the same key at least
   * the later one's cooldown apart.
   */
  predicate Spaced(cfg: Config, ad: seq<Admitted>) {
    && (forall i :: 0 <= i < |ad| ==> ad[i].kind in AlertObjects)
    && (forall i, j :: 0 <= i < j < |ad| && ad[i].key == ad[j].key ==>
          ad[j].at - ad[i].at >= CooldownOf(cfg, ad[j].kind) as real)
  }

  /**
   * The rate limit: with a clock that does not run backwards, two
   * notifications admitted for the same `camera_label` key are at least
   * the later one's cooldown apart, and only alert objects are admitted.
   */
  lemma {:induction false} ReplaySpacing(cfg: Config, last: map<string, real>, arrivals: seq<Arrival>)
    requires Ascending(arrivals)
    ensures Spaced(cfg, Replay(cfg, last, arrivals).admitted)
  {
    if arrivals != [] {
      var pre := arrivals[..|arrivals| - 1];
      var a := arrivals[|arrivals| - 1];
      assert Ascending(pre);
      var t := Replay(cfg, last, pre);
      ReplaySpacing(cfg, last, pre);
      ReplayRecorded(cfg, last, pre);
      var r := Replay(cfg, last, arrivals);
      assert r == Receive(cfg, t, a);
      if r != t {
        var d := Dispatch(a.payload).value;
        SpacingStep(cfg, t, a, d);
      }
    }
  }

  /** One admitted arrival keeps the spacing of the notifications before it. */
  lemma SpacingStep(cfg: Config, t: Trace, a: Arrival, d: Detection)
    requires Dispatch(a.payload) == Some(d)
    requires Recorded(t)
    requires Spaced(cfg, t.admitted)
    ensures Spaced(cfg, Receive(cfg, t, a).admitted)
  {
    var key := Key(d.camera, d.kind);
    var cd := CooldownOf(cfg, d.kind);
    if !Suppressed(t.last, key, a.now, cd) {
      var ad := t.admitted + [Admitted(key, d.kind, a.now)];
      assert Receive(cfg, t, a).admitted == ad;
      var j := |t.admitted|;
      forall i, k | 0 <= i < k < |ad| && ad[i].key == ad[k].key
        ensures ad[k].at - ad[i].at >= CooldownOf(cfg, ad[k].kind) as real
      {
        if k == j {
          assert ad[i] == t.admitted[i];
          assert t.admitted[i].at <= t.last[key];
        } else {
          assert ad[i] == t.admitted[i] && ad[k] == t.admitted[k];
        }
      }
    }
  }

  // ---------------------------------------------------------------- headers

  /** The headers of a detection notice, before the snapshot is known. */
  function Headers(cfg: Config, kind: string, eventId: string): seq<Header> {
    var common := [Header("Title", Capitalize(kind) + " detected"),
                   Header("Click", cfg.frigateUrl + "/api/events/" + eventId + "/clip.mp4")];
    if kind in PetObjects then common + [Header("Tags", if kind == "dog" then "dog" else "cat"), Header("Priority", "low")]
    else common + [Header("Priority", "default")]
  }

  /**
   * Pets are sent at low priority and tagged with their own label; every
   * other object at default priority and untagged. The title names the
   * object and the click opens the event's clip.
   */
  lemma HeadersSpec(cfg: Config, kind: string, eventId: string)
    ensures var h := Headers(cfg, kind, eventId);
      && HeaderValue(h, "Title") == Some(Capitalize(kind) + " detected")
      && HeaderValue(h, "Click") == Some(cfg.frigateUrl + "/api/events/" + eventId + "/clip.mp4")
      && HeaderValue(h, "Priority") == Some(if kind in PetObjects then "low" else "default")
      && HeaderValue(h, "Tags") == (if kind in PetObjects then Some(kind) else None)
      && HeaderValue(h, "Filename") == None
  {
    var h := Headers(cfg, kind, eventId);
    var rest := h[2..];
    forall n | n != "Title" && n != "Click" ensures HeaderValue(h, n) == HeaderValue(rest, n) {
      assert h[1..][1..] == rest;
    }
    if kind in PetObjects {
      assert rest == [Header("Tags", kind), Header("Priority", "low")];
      assert HeaderValue(rest, "Tags") == Some(kind);
      assert rest[1..] == [Header("Priority", "low")];
      assert HeaderValue(rest, "Priority") == Some("low");
      assert HeaderValue(rest, "Filename") == HeaderValue(rest[1..], "Filename") == HeaderValue([], "Filename");
    } else {
      assert rest == [Header("Priority", "default")];
      assert HeaderValue(rest, "Priority") == Some("default");
      assert HeaderValue(rest, "Tags") == HeaderValue([], "Tags");
      assert HeaderValue(rest, "Filename") == HeaderValue([], "Filename");
    }
  }

  /** The answer to `requests.get(snapshot_url)`, or the exception it raised. */
  datatype SnapshotReply = Reply(status: int, content: seq<bv8>) | GetRaised

  /**
   * The request `send_notification` posts once past the cooldown: the
   * snapshot as body when it was fetched with status 200, the text
   * otherwise; nothing when fetching it raised.
   */
  function Notice(cfg: Config, d: Detection, snapshot: SnapshotReply): (r: Option<Post>)
    ensures r.None? <==> snapshot.GetRaised?
    ensures r.Some? ==> r.value.url == TopicUrl(cfg)
    ensures r.Some? && snapshot.status == 200 ==>
      r.value.body == Content(snapshot.content)
      && r.value.headers == Headers(cfg, d.kind, d.eventId) + [Header("Filename", "snapshot.jpg")]
    ensures r.Some? && snapshot.status != 200 ==>
      r.value.body == Message(Capitalize(d.kind) + " detected on " + d.camera)
      && r.value.headers == Headers(cfg, d.kind, d.eventId)
  {
    match snapshot
    case GetRaised => None
    case Reply(status, content) =>
      var h := Headers(cfg, d.kind, d.eventId);
      if status == 200 then Some(Post(TopicUrl(cfg), Content(content), h + [Header("Filename", "snapshot.jpg")]))
      else Some(Post(TopicUrl(cfg), Message(Capitalize(d.kind) + " detected on " + d.camera), h))
  }

  /** The snapshot URL the notice is built from. */
  function SnapshotUrl(cfg: Config, eventId: string): string {
    cfg.frigateUrl + "/api/events/" + eventId + "/snapshot.jpg"
  }

  // ---------------------------------------------------------------- disk

  /** The run of `docker exec frigate df -h /tmp/cache`, or the exception it raised. */
  datatype DfRun = Ran(returncode: int, stdout: string) | DfRaised

  predicate IsPercent(c: char) { c == '%' }

  /**
   * `check_disk_usage`'s parse: the fifth field of the second line of the
   * stripped output, without its trailing `%` signs, as an integer; `None`
   * when the command failed, printed too little, or the field is not an
   * integer (the `ValueError` is caught).
   */
  function DiskUsage(run: DfRun): Option<int> {
    if run.DfRaised? || run.returncode != 0 then None
    else
      var lines := SplitOn(Strip(run.stdout), '\n');
      if |lines| < 2 then None
      else
        var parts := SplitWs(lines[1]);
        if |parts| < 5 then None
        else ParseInt(RStripWhile(parts[4], IsPercent))
  }

  /** A usage figure is only read from a successful run with two lines and five fields on the second. */
  lemma DiskUsageSpec(run: DfRun)
    ensures DiskUsage(run).Some? ==>
      && run.Ran? && run.returncode == 0
      && |SplitOn(Strip(run.stdout), '\n')| >= 2
      && |SplitWs(SplitOn(Strip(run.stdout), '\n')[1])| >= 5
    ensures run.Ran? && run.returncode == 0 && |SplitOn(Strip(run.stdout), '\n')| < 2 ==> DiskUsage(run) == None
  {
  }

  /** `df` output: a header line, then the filesystem's line, then a line break. */
  function DfOutput(header: string, fields: seq<string>, percent: nat, mount: string): string {
    header + "\n" + Join(" ", fields + [NatText(percent) + "%", mount]) + "\n"
  }

  lemma {:induction false} JoinAvoids(sep: string, xs: seq<string>, c: char)
    requires c !in sep && forall k :: 0 <= k < |xs| ==> c !in xs[k]
    ensures c !in Join(sep, xs)
  {
    if |xs| > 1 {
      JoinAvoids(sep, xs[1..], c);
    }
  }

  /**
   * Reading `df`'s usual output gives back the percentage it printed, as
   * long as the header does not start with whitespace and the four fields
   * before the percentage and the mount point are genuine fields.
   */
  lemma DfRoundTrip(header: string, fields: seq<string>, percent: nat, mount: string)
    requires header != [] && !IsSpace(header[0]) && '\n' !in header
    requires |fields| == 4 && AllFields(fields)
    requires IsField(mount)
    ensures DiskUsage(Ran(0, DfOutput(header, fields, percent, mount))) == Some(percent)
  {
    var p := NatText(percent) + "%";
    var row := fields + [p, mount];
    assert IsField(p);
    assert AllFields(row) by {
      assert forall k :: 0 <= k < 4 ==> row[k] == fields[k];
    }
    var line := Join(" ", row);
    DfRow(row);
    DfLines(header, line);
    SplitWsJoin(row);
    assert SplitWs(line)[4] == p;
    PercentField(percent);
  }

  /** The stripped output splits into the header and the filesystem's line. */
  lemma DfLines(header: string, line: string)
    requires header != [] && !IsSpace(header[0]) && '\n' !in header
    requires line != [] && !IsSpace(line[|line| - 1]) && '\n' !in line
    ensures SplitOn(Strip(header + "\n" + line + "\n"), '\n') == [header, line]
  {
    var body := header + ['\n'] + line;
    StripLastBreak(body);
    assert header + "\n" + line + "\n" == body + "\n";
    SplitOnCons(header, line, '\n');
    SplitOnNone(line, '\n');
  }

  /** The filesystem's line of `df`: no line break, and it ends with the mount point. */
  lemma DfRow(row: seq<string>)
    requires row != [] && AllFields(row)
    ensures var line := Join(" ", row); line != [] && !IsSpace(line[|line| - 1]) && '\n' !in line
  {
    forall k | 0 <= k < |row| ensures '\n' !in row[k] {
      assert IsField(row[k]);
    }
    JoinAvoids(" ", row, '\n');
    assert IsField(row[|row| - 1]);
    JoinLast(" ", row);
  }

  /** A trailing line break is all that `strip()` removes from text with clean ends. */
  lemma StripLastBreak(body: string)
    requires body != [] && !IsSpace(body[0]) && !IsSpace(body[|body| - 1])
    ensures Strip(body + "\n") == body
  {
    var s := body + "\n";
    assert LStrip(s) == s;
    assert s[..|s| - 1] == body;
    assert RStripWhile(body, IsSpace) == body;
  }

  /** Dropping the `%` of a printed percentage and reading it back gives the number. */
  lemma PercentField(percent: nat)
    ensures ParseInt(RStripWhile(NatText(percent) + "%", IsPercent)) == Some(percent)
  {
    var p := NatText(percent) + "%";
    assert p[..|p| - 1] == NatText(percent);
    assert RStripWhile(p, IsPercent) == NatText(percent);
    ParseNatText(percent);
  }

  /** Fields joined by a separator end with the last field. */
  lemma {:induction false} JoinLast(sep: string, xs: seq<string>)
    requires xs != [] && xs[|xs| - 1] != []
    ensures var j := Join(sep, xs); j != [] && j[|j| - 1] == xs[|xs| - 1][|xs[|xs| - 1]| - 1]
  {
    if |xs| > 1 {
      JoinLast(sep, xs[1..]);
    }
  }

  /** `str(n)` for an integer. */
  function IntText(n: int): string {
    if n < 0 then "-" + NatText(-n) else NatText(n)
  }

  /** What `send_disk_notification` posts. */
  function DiskPost(cfg: Config, usage: int): Post {
    Post(TopicUrl(cfg),
         Message("Frigate /tmp/cache is " + IntText(usage) + "% full. This may cause recording failures."),
         [Header("Title", "\U{26A0}\U{FE0F} Frigate Cache Full"), Header("Priority", "high"), Header("Tags", "warning")])
  }

  datatype DiskCheck = DiskCheck(usage: Option<int>, alert: Option<Post>, lastDiskAlert: real)

  /** One `check_disk_usage` at time `now`, with the disk alert last sent at `last`. */
  function CheckDisk(cfg: Config, run: DfRun, last: real, now: real): (r: DiskCheck)
    ensures r.usage == DiskUsage(run)
    ensures r.alert.Some? <==> r.usage.Some? && r.usage.value >= DiskWarningThreshold && now - last >= DiskCooldownSeconds as real
    ensures r.alert.Some? ==> r.alert.value == DiskPost(cfg, r.usage.value) && r.lastDiskAlert == now
    ensures r.alert.None? ==> r.lastDiskAlert == last
  {
    var usage := DiskUsage(run);
    if usage.Some? && usage.value >= DiskWarningThreshold then
      if now - last < DiskCooldownSeconds as real then DiskCheck(usage, None, last)
      else DiskCheck(usage, Some(DiskPost(cfg, usage.value)), now)
    else DiskCheck(usage, None, last)
  }

  // ---------------------------------------------------------------- the daemon's state

  /** The module-level `last_alert` and `last_disk_alert` of the daemon. */
  class Alerter {
    const cfg: Config
    var lastAlert: map<string, real>
    var lastDiskAlert: real

    constructor (cfg: Config)
      ensures this.cfg == cfg && lastAlert == map[] && lastDiskAlert == 0.0
    {
      this.cfg := cfg;
      lastAlert := map[];
      lastDiskAlert := 0.0;
    }

    /**
     * `send_notification`: past the cooldown, record `now` for the key and
     * build the request; within it, change nothing.
     */
    method SendNotification(d: Detection, now: real, snapshot: SnapshotReply) returns (post: Option<Post>)
      modifies this
      ensures lastAlert == Admit(old(lastAlert), Key(d.camera, d.kind), now, CooldownOf(cfg, d.kind))
      ensures lastDiskAlert == old(lastDiskAlert)
      ensures post == if Suppressed(old(lastAlert), Key(d.camera, d.kind), now, CooldownOf(cfg, d.kind)) then None
                      else Notice(cfg, d, snapshot)
    {
      var key := Key(d.camera, d.kind);
      var cooldown := if d.kind in PetObjects then cfg.petCooldown else CooldownSeconds;
      if key in lastAlert && now - lastAlert[key] < cooldown as real {
        return None;
      }
      lastAlert := lastAlert[key := now];
      post := Notice(cfg, d, snapshot);
    }

    /** `on_message`: a dispatched detection goes through `send_notification`; anything else is dropped. */
    method OnMessage(a: Arrival, snapshot: SnapshotReply) returns (post: Option<Post>)
      modifies this
      ensures lastAlert == Receive(cfg, Trace(old(lastAlert), []), a).last
      ensures lastDiskAlert == old(lastDiskAlert)
      ensures post == match Dispatch(a.payload)
        case None => None
        case Some(d) =>
          if Suppressed(old(lastAlert), Key(d.camera, d.kind), a.now, CooldownOf(cfg, d.kind)) then None
          else Notice(cfg, d, snapshot)
    {
      var d := Dispatch(a.payload);
      if d.None? {
        return None;
      }
      post := SendNotification(d.value, a.now, snapshot);
    }

    /** `send_disk_notification` */
    method SendDiskNotification(usage: int, now: real) returns (post: Option<Post>)
      modifies this
      ensures post.Some? <==> now - old(lastDiskAlert) >= DiskCooldownSeconds as real
      ensures post.Some? ==> post.value == DiskPost(cfg, usage) && lastDiskAlert == now
      ensures post.None? ==> lastDiskAlert == old(lastDiskAlert)
      ensures lastAlert == old(lastAlert)
    {
      if now - lastDiskAlert < DiskCooldownSeconds as real {
        return None;
      }
      lastDiskAlert := now;
      post := Some(DiskPost(cfg, usage));
    }

    /** `check_disk_usage` */
    method CheckDiskUsage(run: DfRun, now: real) returns (usage: Option<int>, alert: Option<Post>)
      modifies this
      ensures DiskCheck(usage, alert, lastDiskAlert) == CheckDisk(cfg, run, old(lastDiskAlert), now)
      ensures lastAlert == old(lastAlert)
    {
      usage := DiskUsage(run);
      alert := None;
      if usage.Some? && usage.value >= DiskWarningThreshold {
        alert := SendDiskNotification(usage.value, now);
      }
    }
  }

  // ---------------------------------------------------------------- commands

  datatype Command = Restart | ClearCache | Status | Unknown(text: string)

  /** `.strip().lower()` */
  function Normalize(s: string): string {
    Lower(Strip(s))
  }

  /** The three spellings of the clear-cache command. */
  const ClearCacheNames: seq<string> := ["clear-cache", "clear_cache", "clearcache"]

  function CommandOf(message: string): Command {
    var c := Normalize(message);
    if c == "restart" then Restart
    else if c in ClearCacheNames then ClearCache
    else if c == "status" then Status
    else Unknown(c)
  }

  /** The fields of one decoded line of the ntfy JSON stream. */
  datatype NtfyLine = NtfyLine(event: Option<string>, message: Option<string>)

  /** A line is a command only when its event is `message`; a missing message reads as the empty text. */
  function Received(line: Option<NtfyLine>): (r: Option<Command>)
    ensures r.Some? <==> line.Some? && line.value.event == Some("message")
    ensures r.Some? ==> r.value == CommandOf(if line.value.message.Some? then line.value.message.value else "")
  {
    if line.Some? && line.value.event == Some("message") then
      Some(CommandOf(if line.value.message.Some? then line.value.message.value else ""))
    else None
  }

  /** Normalising twice is normalising once. */
  lemma NormalizeIdempotent(s: string)
    ensures Normalize(Normalize(s)) == Normalize(s)
  {
    var x := Strip(s);
    StripBorders(s);
    LowerKeeps(x);
    StripClean(Lower(x));
    assert Strip(Lower(x)) == Lower(x);
  }

  /**
   * Commands are recognised after normalising, so a normalised command
   * means the same; an unknown command carries its normalised text.
   */
  lemma CommandOfNormalized(s: string)
    ensures CommandOf(Normalize(s)) == CommandOf(s)
    ensures CommandOf(s).Unknown? ==>
      (CommandOf(s).text == Normalize(s) && Normalize(s) !in ["restart", "status"] + ClearCacheNames)
  {
    NormalizeIdempotent(s);
  }

  /** Surrounding whitespace and upper case do not hide a command. */
  lemma ClearCacheExample()
    ensures CommandOf(" Clear_Cache\n") == ClearCache
  {
    var u := "Clear_Cache";
    assert " Clear_Cache\n" == [' '] + u + ['\n'];
    assert !IsSpace(u[0]) && !IsSpace(u[|u| - 1]);
    StripPadded(u);
    LowerExample();
    assert Normalize(" Clear_Cache\n") == "clear_cache";
    assert "clear_cache" == ClearCacheNames[1];
  }

  lemma LowerExample()
    ensures Lower("Clear_Cache") == "clear_cache"
  {
    var u := "Clear_Cache";
    forall i | 0 <= i < |u| ensures LowerChar(u[i]) == "clear_cache"[i] {
      if i == 0 || i == 6 {
        assert IsUpper(u[i]);
      } else {
        assert !IsUpper(u[i]);
      }
    }
  }

  lemma StripPadded(u: string)
    requires u != [] && !IsSpace(u[0]) && !IsSpace(u[|u| - 1])
    ensures Strip([' '] + u + ['\n']) == u
  {
    var t := [' '] + u + ['\n'];
    assert t[1..] == u + ['\n'];
    assert LStrip(t) == u + ['\n'];
    assert (u + ['\n'])[..|u|] == u;
    assert RStripWhile(u, IsSpace) == u;
  }
}
