/** The scan of an upload: from its row and its bytes to one terminal status. */
module ScanPipeline {
  import opened MagicBytes
  import opened Wrappers

  type Id = nat

  datatype Status = Uploaded | Processing | Ready | Failed | Blocked | Quarantined

  predicate IsTerminal(s: Status) {
    s.Ready? || s.Failed? || s.Blocked? || s.Quarantined?
  }

  datatype Attachment = Attachment(
    isImage: bool,
    mimeType: string,
    status: Status,
    bucket: string,
    key: string,
    uploader: Id,
    thumbnailKey: Option<string>,
    rejectionReason: Option<string>)

  datatype Slot = Slot(bucket: string, key: string)

  type Objects = map<Slot, seq<Byte>>

  datatype Notice = Notice(attachment: Id, uploader: Id, status: Status)

  /** A storage call goes well, or throws without or with its effect done. */
  datatype Fault = Fine | ThrowsBefore | ThrowsAfter

  datatype Verdict = Clean | Infected(signature: string)

  /** What the outside world does during one job. A scan that fails gives no verdict; decoding that
      fails gives no bytes; `callbackThrows` is about the first and the second notification. */
  datatype World = World(
    headReads: bool,
    scanOpens: bool,
    verdict: Option<Verdict>,
    imageOpens: bool,
    stripped: Option<seq<Byte>>,
    putStripped: Fault,
    thumbnail: Option<seq<Byte>>,
    putThumbnail: Fault,
    copy: Fault,
    remove: Fault,
    firstCallbackThrows: bool,
    secondCallbackThrows: bool)

  datatype Config = Config(hasScanner: bool, allowUnscanned: bool, quarantineBucket: string)

  // ----- storage calls -----

  function Removed(objects: Objects, slot: Slot, fault: Fault): Objects {
    if fault == ThrowsBefore then objects else objects - {slot}
  }

  function Put(objects: Objects, slot: Slot, data: seq<Byte>, fault: Fault): Objects {
    if fault == ThrowsBefore then objects else objects[slot := data]
  }

  function Copied(objects: Objects, from: Slot, to: Slot, fault: Fault): Objects {
    if fault == ThrowsBefore || from !in objects then objects else objects[to := objects[from]]
  }

  // ----- what the job should come to -----

  function MainSlot(att: Attachment): Slot {
    Slot(att.bucket, att.key)
  }

  function QuarantineSlot(att: Attachment, config: Config): Slot {
    Slot(config.quarantineBucket, att.key)
  }

  function ThumbnailKey(att: Attachment): string {
    att.key + ".thumb.webp"
  }

  /** The head can be read and is what the declared type says. */
  ghost predicate PassesMagic(att: Attachment, objects: Objects, w: World) {
    w.headReads && MainSlot(att) in objects && MagicHolds(objects[MainSlot(att)], att.mimeType)
  }

  /** Clean, or not scanned where that is allowed. */
  predicate PassesScan(w: World, config: Config) {
    if config.hasScanner then w.scanOpens && (w.verdict == Some(Clean) || (w.verdict == None && config.allowUnscanned))
    else config.allowUnscanned
  }

  predicate IsInfected(w: World, config: Config) {
    config.hasScanner && w.scanOpens && w.verdict.Some? && w.verdict.value.Infected?
  }

  predicate ImageDone(att: Attachment, w: World) {
    att.isImage ==>
      w.imageOpens && w.stripped.Some? && w.putStripped == Fine && w.thumbnail.Some? && w.putThumbnail == Fine
  }

  /** The status the job first comes to. */
  ghost function DueStatus(att: Attachment, objects: Objects, w: World, config: Config): (s: Status)
    ensures IsTerminal(s)
  {
    if !w.headReads || MainSlot(att) !in objects then Failed
    else if !PassesMagic(att, objects, w) then Blocked
    else if IsInfected(w, config) then Quarantined
    else if PassesScan(w, config) && ImageDone(att, w) then Ready
    else Failed
  }

  /** Why the job turns an upload down. */
  ghost function DueReason(att: Attachment, objects: Objects, w: World, config: Config): string {
    if CallThrows(att, objects, w, config) then "unexpected_error"
    else if !PassesMagic(att, objects, w) then "mime_mismatch"
    else if IsInfected(w, config) then "virus:" + w.verdict.value.signature
    else "scanner_unavailable"
  }

  /** The row with the status the job first comes to: with the thumbnail if it is a ready image, with
      the reason if it is turned down, and otherwise as it was uploaded. */
  ghost function DueRow(att: Attachment, objects: Objects, w: World, config: Config): Attachment {
    var due := DueStatus(att, objects, w, config);
    if due == Ready then
      att.(status := Ready, thumbnailKey := if att.isImage then Some(att.key + ".thumb.webp") else None)
    else att.(status := due, rejectionReason := Some(DueReason(att, objects, w, config)))
  }

  function Unexpected(att: Attachment): Attachment {
    att.(status := Failed, rejectionReason := Some("unexpected_error"))
  }

  /** A storage call or the decoding throws before there is a verdict to report. */
  ghost predicate CallThrows(att: Attachment, objects: Objects, w: World, config: Config) {
    || !w.headReads || MainSlot(att) !in objects
    || (&& PassesMagic(att, objects, w)
        && (|| (config.hasScanner && !w.scanOpens)
            || (PassesScan(w, config) && !ImageDone(att, w))))
  }

  /** Each status, and each reason, from what the job meets: blocked if the head is not what the type
      says; quarantined if the scanner finds something; ready if it does not, or is not asked or does
      not answer where policy allows that, and an image could be re-encoded; failed otherwise. */
  lemma StatusIff(att: Attachment, objects: Objects, w: World, config: Config)
    ensures var row := DueRow(att, objects, w, config);
            var slot := Slot(att.bucket, att.key);
            var genuine := w.headReads && slot in objects && MagicHolds(objects[slot], att.mimeType);
            var asked := config.hasScanner && w.scanOpens;
            var encoded := w.imageOpens && w.stripped.Some? && w.putStripped == Fine
                           && w.thumbnail.Some? && w.putThumbnail == Fine;
            && (row.status == Blocked <==> w.headReads && slot in objects && !genuine)
            && (row.status == Quarantined <==> genuine && asked && w.verdict.Some? && w.verdict.value.Infected?)
            && (row.status == Ready <==>
                  && genuine && (att.isImage ==> encoded)
                  && (if config.hasScanner then w.scanOpens && (w.verdict == Some(Clean) || (w.verdict.None? && config.allowUnscanned))
                      else config.allowUnscanned))
            && IsTerminal(row.status)
            && (row.status == Blocked ==> row.rejectionReason == Some("mime_mismatch"))
            && (row.status == Quarantined ==> row.rejectionReason == Some("virus:" + w.verdict.value.signature))
            && (row.status == Failed ==>
                  row.rejectionReason == Some(
                    if genuine && !config.allowUnscanned && (config.hasScanner ==> asked && w.verdict.None?)
                    then "scanner_unavailable" else "unexpected_error"))
            && (row.status == Ready ==> row.thumbnailKey == if att.isImage then Some(att.key + ".thumb.webp") else None)
            && row == att.(status := row.status, rejectionReason := row.rejectionReason, thumbnailKey := row.thumbnailKey)
            && (row.status == Ready ==> row.rejectionReason == att.rejectionReason)
            && (row.status != Ready ==> row.thumbnailKey == att.thumbnailKey)
  {
    hide MagicHolds;
  }

  /** The bytes are in the bucket they were uploaded to, or in quarantine. */
  predicate Kept(objects: Objects, att: Attachment, config: Config, data: seq<Byte>) {
    || (MainSlot(att) in objects && objects[MainSlot(att)] == data)
    || (QuarantineSlot(att, config) in objects && objects[QuarantineSlot(att, config)] == data)
  }

  /** Storage after the copy, and after the removal that follows a copy that went well. */
  function AfterCopy(objects: Objects, att: Attachment, w: World, config: Config): Objects {
    Copied(objects, MainSlot(att), QuarantineSlot(att, config), w.copy)
  }

  function AfterQuarantine(objects: Objects, att: Attachment, w: World, config: Config): Objects {
    var copied := AfterCopy(objects, att, w, config);
    if w.copy == Fine then Removed(copied, MainSlot(att), w.remove) else copied
  }

  /** Quarantining never loses the bytes, exactly if the quarantine is another bucket, the copy throws,
      be it with its effect done, or the removal throws without its effect. */
  lemma QuarantineKeepsBytesIff(objects: Objects, att: Attachment, w: World, config: Config)
    requires MainSlot(att) in objects
    ensures var data := objects[MainSlot(att)];
            && Kept(AfterCopy(objects, att, w, config), att, config, data)
            && (Kept(AfterQuarantine(objects, att, w, config), att, config, data) <==>
                  att.bucket != config.quarantineBucket || w.copy != Fine || w.remove == ThrowsBefore)
  {
    assert QuarantineSlot(att, config) == MainSlot(att) <==> att.bucket == config.quarantineBucket;
  }

  function ThumbnailSlot(att: Attachment): Slot {
    Slot(att.bucket, ThumbnailKey(att))
  }

  /** Storage after an image was re-encoded, as far as that came. */
  function AfterImage(objects: Objects, att: Attachment, w: World): Objects {
    if !w.imageOpens || w.stripped.None? then objects
    else
      var replaced := Put(objects, MainSlot(att), w.stripped.value, w.putStripped);
      if w.putStripped != Fine || w.thumbnail.None? then replaced
      else Put(replaced, ThumbnailSlot(att), w.thumbnail.value, w.putThumbnail)
  }

  /** What a job leaves in storage. */
  ghost function DueObjects(att: Attachment, objects: Objects, w: World, config: Config): Objects {
    match DueStatus(att, objects, w, config)
    case Quarantined => AfterQuarantine(objects, att, w, config)
    case Blocked => Removed(objects, MainSlot(att), w.remove)
    case _ =>
      if PassesMagic(att, objects, w) && PassesScan(w, config) && att.isImage then AfterImage(objects, att, w) else objects
  }

  /** A slot afterwards holds what it held. */
  ghost predicate SameAt(before: Objects, after: Objects, slot: Slot) {
    (slot in after <==> slot in before) && (slot in before ==> after[slot] == before[slot])
  }

  // ----- one job, and runs of jobs -----

  datatype Desk = Desk(rows: map<Id, Attachment>, objects: Objects, notices: seq<Notice>)

  /** What a job may do: nothing to a row that is no fresh upload. A fresh upload comes to the status
      that is due, with one notification; if the callback throws on a verdict, the job fails it on
      top and notifies again. */
  ghost predicate JobStep(s: Desk, t: Desk, id: Id, w: World, config: Config) {
    if id !in s.rows || s.rows[id].status != Uploaded then t == s
    else
      var att := s.rows[id];
      var due := DueStatus(att, s.objects, w, config);
      var again := w.firstCallbackThrows && !CallThrows(att, s.objects, w, config);
      && id in t.rows && t.rows == s.rows[id := t.rows[id]]
      && t.rows[id] == (if again then Unexpected(DueRow(att, s.objects, w, config)) else DueRow(att, s.objects, w, config))
      && t.notices == s.notices + [Notice(id, att.uploader, due)]
                      + (if again then [Notice(id, att.uploader, Failed)] else [])
      && t.objects == DueObjects(att, s.objects, w, config)
  }

  datatype Job = Job(id: Id, world: World)

  ghost predicate IsRun(desks: seq<Desk>, jobs: seq<Job>, config: Config) {
    && |desks| == |jobs| + 1
    && forall k {:trigger jobs[k]} :: 0 <= k < |jobs| ==> JobStep(desks[k], desks[k + 1], jobs[k].id, jobs[k].world, config)
  }

  function NoticesOf(notices: seq<Notice>, id: Id): seq<Notice> {
    if notices == [] then []
    else
      var n := |notices| - 1;
      NoticesOf(notices[..n], id) + if notices[n].attachment == id then [notices[n]] else []
  }

  /** The job, if it finds a fresh upload, reports on it once: the callback does not throw, or only
      throws where a call threw before there was a verdict. */
  ghost predicate ReportsOnce(s: Desk, job: Job, config: Config)
    requires job.id in s.rows
  {
    job.world.firstCallbackThrows ==> CallThrows(s.rows[job.id], s.objects, job.world, config)
  }

  /** What a job on a fresh upload reports. */
  ghost function Reports(s: Desk, job: Job, config: Config): seq<Notice>
    requires job.id in s.rows
  {
    var att := s.rows[job.id];
    [Notice(job.id, att.uploader, DueStatus(att, s.objects, job.world, config))]
    + if ReportsOnce(s, job, config) then [] else [Notice(job.id, att.uploader, Failed)]
  }

  /** The k-th job settled the upload, the first one for it: the status and the notifications are its
      reports, and the last of them has the status. */
  ghost predicate SettledBy(desks: seq<Desk>, jobs: seq<Job>, config: Config, id: Id, k: nat, t: Desk) {
    && k < |jobs| && k < |desks| && jobs[k].id == id && (forall j :: 0 <= j < k ==> jobs[j].id != id)
    && id in desks[0].rows && id in desks[k].rows && desks[k].rows[id] == desks[0].rows[id] && id in t.rows
    && var reports := Reports(desks[k], jobs[k], config);
       NoticesOf(t.notices, id) == reports && t.rows[id].status == reports[|reports| - 1].status
  }

  ghost predicate StillFresh(first: Desk, t: Desk, id: Id) {
    && id in first.rows && id in t.rows && t.rows[id] == first.rows[id] && NoticesOf(t.notices, id) == []
  }

  /** A job for another upload, or for one that is settled, touches neither the row nor its
      notifications, whatever its callback does. */
  lemma JobOnOther(s: Desk, t: Desk, job: Job, config: Config, id: Id)
    requires JobStep(s, t, job.id, job.world, config) && id in s.rows
    requires job.id != id || s.rows[id].status != Uploaded
    ensures id in t.rows && t.rows[id] == s.rows[id] && NoticesOf(t.notices, id) == NoticesOf(s.notices, id)
  {
    if t != s {
      NoticesPushed(s, t, job, config, id);
    }
  }

  lemma NoticesPushed(s: Desk, t: Desk, job: Job, config: Config, id: Id)
    requires JobStep(s, t, job.id, job.world, config) && job.id in s.rows && s.rows[job.id].status == Uploaded
    ensures NoticesOf(t.notices, id) == NoticesOf(s.notices, id) + if job.id == id then Reports(s, job, config) else []
  {
    hide DueStatus, CallThrows;
    var att := s.rows[job.id];
    var n := Notice(job.id, att.uploader, DueStatus(att, s.objects, job.world, config));
    var m := Notice(job.id, att.uploader, Failed);
    assert (s.notices + [n])[..|s.notices|] == s.notices;
    assert (s.notices + [n] + [m])[..|s.notices| + 1] == s.notices + [n];
    assert s.notices + [n] + [] == s.notices + [n];
  }

  lemma JobOnFresh(s: Desk, t: Desk, job: Job, config: Config)
    requires JobStep(s, t, job.id, job.world, config) && job.id in s.rows
    requires s.rows[job.id].status == Uploaded && NoticesOf(s.notices, job.id) == []
    ensures var reports := Reports(s, job, config);
            && job.id in t.rows && NoticesOf(t.notices, job.id) == reports
            && t.rows[job.id].status == reports[|reports| - 1].status && IsTerminal(t.rows[job.id].status)
  {
    NoticesPushed(s, t, job, config, job.id);
  }

  /** A job on a fresh upload leaves one notification for it exactly when the callback does not
      throw on a verdict. */
  lemma OneNoticeIff(s: Desk, t: Desk, job: Job, config: Config)
    requires JobStep(s, t, job.id, job.world, config) && job.id in s.rows
    requires s.rows[job.id].status == Uploaded && NoticesOf(s.notices, job.id) == []
    ensures |NoticesOf(t.notices, job.id)| == 1 <==>
            !(job.world.firstCallbackThrows && !CallThrows(s.rows[job.id], s.objects, job.world, config))
  {
    JobOnFresh(s, t, job, config);
  }

  /** What a job on a fresh upload makes of its bytes. A ready image is its re-encoding, with a thumbnail
      beside it; other ready uploads are untouched. A failed upload is still there, as it was or as
      re-encoded. A blocked one is removed. A quarantined one is moved to quarantine, if that is another
      bucket and no call throws. No other slot changes. */
  lemma JobStores(s: Desk, t: Desk, job: Job, config: Config, other: Slot)
    requires JobStep(s, t, job.id, job.world, config) && job.id in s.rows && s.rows[job.id].status == Uploaded
    ensures var att, w := s.rows[job.id], job.world;
            var slot, thumbnail := Slot(att.bucket, att.key), Slot(att.bucket, att.key + ".thumb.webp");
            var quarantine := Slot(config.quarantineBucket, att.key);
            var due := DueStatus(att, s.objects, w, config);
            var touched := {slot} + (if due.Quarantined? then {quarantine} else {})
                           + (if att.isImage && (due.Ready? || due.Failed?) then {thumbnail} else {});
            && (other !in touched ==> SameAt(s.objects, t.objects, other))
            && (due.Ready? && !att.isImage ==> SameAt(s.objects, t.objects, slot))
            && (due.Ready? && att.isImage ==>
                  && thumbnail in t.objects && Some(t.objects[thumbnail]) == w.thumbnail
                  && slot in t.objects && Some(t.objects[slot]) == w.stripped)
            && (due.Failed? ==>
                  || SameAt(s.objects, t.objects, slot)
                  || (att.isImage && w.putStripped != ThrowsBefore && slot in t.objects && Some(t.objects[slot]) == w.stripped))
            && (due.Blocked? ==> if w.remove == ThrowsBefore then SameAt(s.objects, t.objects, slot) else slot !in t.objects)
            && (due.Quarantined? && att.bucket != config.quarantineBucket ==>
                  && (if w.copy == ThrowsBefore then SameAt(s.objects, t.objects, quarantine)
                      else quarantine in t.objects && t.objects[quarantine] == s.objects[slot])
                  && (if w.copy == Fine && w.remove != ThrowsBefore then slot !in t.objects
                      else SameAt(s.objects, t.objects, slot)))
  {
    hide MagicHolds;
    ThumbnailIsOther(s.rows[job.id]);
  }

  lemma ThumbnailIsOther(att: Attachment)
    ensures ThumbnailSlot(att) != MainSlot(att)
  {
    assert |ThumbnailKey(att)| == |att.key| + 11;
  }

  /** However many jobs run, whatever storage, scanner and callbacks do, an upload is settled by its
      first job; other jobs change neither its row nor its notifications. */
  lemma {:induction false} FirstJobSettles(desks: seq<Desk>, jobs: seq<Job>, config: Config, id: Id)
    requires IsRun(desks, jobs, config)
    requires id in desks[0].rows && desks[0].rows[id].status == Uploaded && NoticesOf(desks[0].notices, id) == []
    ensures var t := desks[|jobs|];
            if exists k :: 0 <= k < |jobs| && jobs[k].id == id then
              IsTerminal(StatusOf(t, id)) && exists k :: SettledBy(desks, jobs, config, id, k, t)
            else StillFresh(desks[0], t, id)
  {
    hide JobStep, Reports, NoticesOf;
    if jobs != [] {
      var n := |jobs| - 1;
      FirstJobSettles(desks[..n + 1], jobs[..n], config, id);
      var s, t, job := desks[n], desks[n + 1], jobs[n];
      assert JobStep(s, t, job.id, job.world, config);
      assert forall k :: 0 <= k < n ==> jobs[k] == jobs[..n][k];
      if exists k :: 0 <= k < n && jobs[k].id == id {
        assert exists k :: 0 <= k < n && jobs[..n][k].id == id;
        var first: nat :| SettledBy(desks[..n + 1], jobs[..n], config, id, first, s);
        JobOnOther(s, t, job, config, id);
        assert SettledBy(desks, jobs, config, id, first, t);
      } else if job.id == id {
        JobOnFresh(s, t, job, config);
        assert SettledBy(desks, jobs, config, id, n, t);
      } else {
        JobOnOther(s, t, job, config, id);
      }
    }
  }

  function StatusOf(d: Desk, id: Id): Status {
    if id in d.rows then d.rows[id].status else Uploaded
  }

  /** A ready attachment was what its type says, and clean unless unscanned uploads are allowed; and
      the one notification for it says ready. */
  lemma ReadyWasChecked(desks: seq<Desk>, jobs: seq<Job>, config: Config, id: Id)
    requires IsRun(desks, jobs, config)
    requires id in desks[0].rows && desks[0].rows[id].status == Uploaded && NoticesOf(desks[0].notices, id) == []
    requires StatusOf(desks[|jobs|], id) == Ready
    ensures exists k :: 0 <= k < |jobs| && jobs[k].id == id && id in desks[k].rows
                        && PassesMagic(desks[k].rows[id], desks[k].objects, jobs[k].world)
                        && PassesScan(jobs[k].world, config)
                        && NoticesOf(desks[|jobs|].notices, id) == [Notice(id, desks[k].rows[id].uploader, Ready)]
  {
    hide JobStep, MagicHolds, PassesScan, IsInfected, ImageDone, CallThrows;
    FirstJobSettles(desks, jobs, config, id);
    assert exists j :: 0 <= j < |jobs| && jobs[j].id == id;
    var k: nat :| SettledBy(desks, jobs, config, id, k, desks[|jobs|]);
    assert jobs[k].id == id;
  }

  // ----- where the promises fail -----

  const NOTE: Attachment := Attachment(false, "text/plain", Uploaded, "uploads", "note", 1, None, None)

  function QuietWorld(callbackThrows: bool, verdict: Option<Verdict>): World {
    World(true, true, verdict, true, None, Fine, None, Fine, Fine, Fine, callbackThrows, false)
  }

  const NOTE_SLOT: Slot := Slot("uploads", "note")

  lemma NotePassesMagic(w: World)
    requires w.headReads
    ensures PassesMagic(NOTE, map[NOTE_SLOT := [65]], w)
  {
    PlainTextIsNoMedia();
    assert NOTE_SLOT == MainSlot(NOTE);
  }

  lemma PlainTextIsNoMedia()
    ensures Candidates("text/plain") == None && !IsMedia("text/plain")
  {
    var mime := "text/plain";
    assert mime[0] == 't' && "image/"[0] == 'i' && "video/"[0] == 'v' && "audio/"[0] == 'a';
  }

  const NOTED: Desk := Desk(map[1 := NOTE], map[NOTE_SLOT := [65]], [])

  /** A callback that throws on the verdict: the upload is reported ready, and then failed. */
  lemma ThrowingCallbackReportsTwice()
    ensures JobStep(NOTED,
                    Desk(map[1 := NOTE.(status := Failed, rejectionReason := Some("unexpected_error"))], NOTED.objects,
                         [Notice(1, 1, Ready), Notice(1, 1, Failed)]),
                    1, QuietWorld(true, Some(Clean)), Config(true, false, "quarantine"))
  {
    hide PassesMagic;
    NotePassesMagic(QuietWorld(true, Some(Clean)));
    assert NOTED.notices + [Notice(1, 1, Ready)] + [Notice(1, 1, Failed)] == [Notice(1, 1, Ready), Notice(1, 1, Failed)];
  }

  /** A quarantine that is the bucket of the upload: the bytes are gone. */
  lemma OwnBucketLosesBytes()
    ensures JobStep(NOTED,
                    Desk(map[1 := NOTE.(status := Quarantined, rejectionReason := Some("virus:eicar"))], map[],
                         [Notice(1, 1, Quarantined)]),
                    1, QuietWorld(false, Some(Infected("eicar"))), Config(true, false, NOTE.bucket))
  {
    hide PassesMagic;
    NotePassesMagic(QuietWorld(false, Some(Infected("eicar"))));
    assert "virus:" + "eicar" == "virus:eicar";
  }

  class Pipeline {
    const config: Config
    var rows: map<Id, Attachment>
    var objects: Objects
    var notices: seq<Notice>
    /** The statuses written, and the storage after each change. */
    ghost var written: seq<Status>
    ghost var trace: seq<Objects>

    constructor (config: Config, rows: map<Id, Attachment>, objects: Objects)
      ensures this.config == config && this.rows == rows && this.objects == objects
      ensures notices == [] && written == [] && trace == [objects]
    {
      this.config := config;
      this.rows := rows;
      this.objects := objects;
      notices := [];
      written := [];
      trace := [objects];
    }

    ghost function AsDesk(): Desk
      reads this
    {
      Desk(rows, objects, notices)
    }

    method Store(after: Objects)
      modifies this`objects, this`trace
      ensures objects == after && trace == old(trace) + [after]
    {
      objects := after;
      trace := trace + [after];
    }

    /** Writes a status and reports it; true if the callback threw. */
    method Finish(id: Id, row: Attachment, callbackThrows: bool) returns (threw: bool)
      requires id in rows
      modifies this`rows, this`notices, this`written
      ensures rows == old(rows)[id := row] && written == old(written) + [row.status]
      ensures notices == old(notices) + [Notice(id, row.uploader, row.status)]
      ensures threw == callbackThrows
    {
      rows := rows[id := row];
      written := written + [row.status];
      notices := notices + [Notice(id, row.uploader, row.status)];
      return callbackThrows;
    }

    /** `att` is the row as the job read it at its start. */
    method Reject(id: Id, att: Attachment, reason: string, status: Status, w: World, callbackThrows: bool)
      returns (threw: bool)
      requires id in rows && status in {Failed, Blocked, Quarantined}
      modifies this`rows, this`objects, this`notices, this`written, this`trace
      ensures id in rows && rows == old(rows)[id := rows[id]]
      ensures rows[id] == old(rows)[id].(status := status, rejectionReason := Some(reason))
      ensures written == old(written) + [status]
      ensures notices == old(notices) + [Notice(id, old(rows)[id].uploader, status)]
      ensures threw == callbackThrows
      ensures match status
              case Quarantined =>
                && objects == AfterQuarantine(old(objects), att, w, config)
                && trace == old(trace) + [AfterCopy(old(objects), att, w, config)]
                            + if w.copy == Fine then [objects] else []
              case Blocked =>
                objects == Removed(old(objects), MainSlot(att), w.remove) && trace == old(trace) + [objects]
              case _ => objects == old(objects) && trace == old(trace)
    {
      if status == Quarantined {
        Store(Copied(objects, MainSlot(att), QuarantineSlot(att, config), w.copy));
        if w.copy == Fine {
          Store(Removed(objects, MainSlot(att), w.remove));
        }
      } else if status == Blocked {
        Store(Removed(objects, MainSlot(att), w.remove));
      }
      threw := Finish(id, rows[id].(status := status, rejectionReason := Some(reason)), callbackThrows);
    }

    /** Re-encoding and thumbnail; false if something threw. */
    method NormaliseImage(att: Attachment, w: World) returns (ok: bool)
      modifies this`objects, this`trace
      ensures ok <==> w.imageOpens && w.stripped.Some? && w.putStripped == Fine && w.thumbnail.Some? && w.putThumbnail == Fine
      ensures objects == AfterImage(old(objects), att, w)
    {
      if !w.imageOpens || w.stripped.None? {
        return false;
      }
      Store(Put(objects, MainSlot(att), w.stripped.value, w.putStripped));
      if w.putStripped != Fine || w.thumbnail.None? {
        return false;
      }
      Store(Put(objects, ThumbnailSlot(att), w.thumbnail.value, w.putThumbnail));
      return w.putThumbnail == Fine;
    }

    /** The job up to its first notification, or up to the call that throws. */
    method TryScan(id: Id, att: Attachment, w: World) returns (threw: bool, notified: bool)
      requires id in rows && rows[id] == att.(status := Processing)
      modifies this`rows, this`objects, this`notices, this`written, this`trace
      ensures id in rows && rows == old(rows)[id := rows[id]]
      ensures var due := DueStatus(att, old(objects), w, config);
              && (notified <==> !CallThrows(att, old(objects), w, config))
              && if notified then
                && threw == w.firstCallbackThrows && rows[id] == DueRow(att, old(objects), w, config)
                && written == old(written) + [due] && notices == old(notices) + [Notice(id, att.uploader, due)]
              else
                && threw && due == Failed
                && rows == old(rows) && written == old(written) && notices == old(notices)
      ensures objects == DueObjects(att, old(objects), w, config)
      ensures DueStatus(att, old(objects), w, config) == Quarantined ==>
                && trace == old(trace) + [AfterCopy(old(objects), att, w, config)]
                            + if w.copy == Fine then [objects] else []
    {
      hide MagicHolds;
      if !w.headReads || MainSlot(att) !in objects {
        return true, false;
      }
      HeadIsEnough(objects[MainSlot(att)], att.mimeType);
      var magic := CheckMagic(Head(objects[MainSlot(att)]), att.mimeType);
      if !magic {
        threw := Reject(id, att, "mime_mismatch", Blocked, w, w.firstCallbackThrows);
        return threw, true;
      }
      if config.hasScanner {
        if !w.scanOpens {
          return true, false;
        }
        if w.verdict.None? {
          if !config.allowUnscanned {
            threw := Reject(id, att, "scanner_unavailable", Failed, w, w.firstCallbackThrows);
            return threw, true;
          }
        } else if w.verdict.value.Infected? {
          threw := Reject(id, att, "virus:" + w.verdict.value.signature, Quarantined, w, w.firstCallbackThrows);
          return threw, true;
        }
      } else if !config.allowUnscanned {
        threw := Reject(id, att, "scanner_unavailable", Failed, w, w.firstCallbackThrows);
        return threw, true;
      }
      var thumbnailKey := None;
      if att.isImage {
        var ok := NormaliseImage(att, w);
        if !ok {
          return true, false;
        }
        thumbnailKey := Some(ThumbnailKey(att));
      }
      threw := Finish(id, rows[id].(status := Ready, thumbnailKey := thumbnailKey), w.firstCallbackThrows);
      return threw, true;
    }

    /** One job, without or with a throw that leaves it. */
    method RunScanJob(id: Id, w: World) returns (threw: bool)
      modifies this`rows, this`objects, this`notices, this`written, this`trace
      ensures JobStep(old(AsDesk()), AsDesk(), id, w, config)
      ensures threw ==> w.firstCallbackThrows
      ensures id in old(rows) && old(rows)[id].status == Uploaded ==>
                var att := old(rows)[id];
                var due := DueStatus(att, old(objects), w, config);
                var late := CallThrows(att, old(objects), w, config);
                && threw == (w.firstCallbackThrows && (late || w.secondCallbackThrows))
                && written == old(written) + [Processing, due] + (if w.firstCallbackThrows && !late then [Failed] else [])
                && (due == Quarantined ==>
                      trace == old(trace) + [AfterCopy(old(objects), att, w, config)]
                               + if w.copy == Fine then [objects] else [])
    {
      if id !in rows || rows[id].status != Uploaded {
        return false;
      }
      var att := rows[id];
      rows := rows[id := att.(status := Processing)];
      written := written + [Processing];
      var notified;
      threw, notified := TryScan(id, att, w);
      if threw {
        var callbackThrows := if notified then w.secondCallbackThrows else w.firstCallbackThrows;
        threw := Reject(id, att, "unexpected_error", Failed, w, callbackThrows);
      }
    }
  }
}
