/** The video service (src/services/videoService.ts): it samples a video at
    fixed ticks, reads the five overlay regions of each frame through the OCR
    service and assembles one game snapshot per frame. Frame decoding,
    resizing and cropping are oracles passed in as functions. */
module Video {
  import opened Wrappers
  import opened Types
  import opened JsText
  import opened Config
  import opened Ocr

  /** The size every frame is resized to before cropping. */
  const FrameWidth := 1920
  const FrameHeight := 1080

  const DefaultStartTime := 0
  const DefaultEndTime := 60
  const DefaultFrameInterval := 1

  /** The image collaborators: ffmpeg's single-frame extraction at a time,
      sharp's resize, and sharp's crop of a rectangle. Each may fail. */
  datatype Media = Media(
    extractFrame: (string, int) -> Result<Bytes>,
    resize: (Bytes, int, int) -> Result<Bytes>,
    extractRoi: (Bytes, Rect) -> Result<Bytes>)

  function StartTime(request: ProcessVideoRequest): int {
    if request.startTime.Some? then request.startTime.value else DefaultStartTime
  }

  function EndTime(request: ProcessVideoRequest): int {
    if request.endTime.Some? then request.endTime.value else DefaultEndTime
  }

  function FrameInterval(request: ProcessVideoRequest): int {
    if request.frameInterval.Some? then request.frameInterval.value else DefaultFrameInterval
  }

  /** The sampling loop ends: it either never starts or moves forward. */
  predicate SamplingEnds(request: ProcessVideoRequest) {
    FrameInterval(request) > 0 || StartTime(request) >= EndTime(request)
  }

  /** The ticks start, start + interval, ... that lie below `end`. */
  function Ticks(start: int, end: int, interval: int): (ticks: seq<int>)
    requires interval > 0 || start >= end
    ensures forall k | 0 <= k < |ticks| :: start <= ticks[k] < end
    decreases end - start
  {
    if start >= end then [] else [start] + Ticks(start + interval, end, interval)
  }

  lemma NextMultiple(k: int, interval: int)
    ensures k * interval + interval == (k + 1) * interval
  {
  }

  /** The k-th tick is start + k * interval, and the tick after the last
      one would not lie below `end`. */
  lemma {:induction false} TicksEnumerate(start: int, end: int, interval: int)
    requires interval > 0 || start >= end
    decreases end - start
    ensures forall k | 0 <= k < |Ticks(start, end, interval)| :: Ticks(start, end, interval)[k] == start + k * interval
    ensures start + |Ticks(start, end, interval)| * interval >= end
  {
    if start < end {
      var ticks := Ticks(start, end, interval);
      var rest := Ticks(start + interval, end, interval);
      TicksEnumerate(start + interval, end, interval);
      assert ticks == [start] + rest;
      forall k | 0 < k < |ticks| ensures ticks[k] == start + k * interval {
        assert ticks[k] == rest[k - 1] == start + interval + (k - 1) * interval;
        NextMultiple(k - 1, interval);
      }
      NextMultiple(|rest|, interval);
    }
  }

  /** The ticks strictly increase. */
  lemma {:induction false} TicksIncreasing(start: int, end: int, interval: int)
    requires interval > 0 || start >= end
    decreases end - start
    ensures forall j, k | 0 <= j < k < |Ticks(start, end, interval)| ::
      Ticks(start, end, interval)[j] < Ticks(start, end, interval)[k]
  {
    if start < end {
      var ticks := Ticks(start, end, interval);
      var rest := Ticks(start + interval, end, interval);
      TicksIncreasing(start + interval, end, interval);
      assert ticks == [start] + rest;
      forall j, k | 0 <= j < k < |ticks| ensures ticks[j] < ticks[k] {
        assert ticks[k] == rest[k - 1] >= start + interval;
        if j == 0 {
          assert ticks[j] == start;
        } else {
          assert ticks[j] == rest[j - 1] < rest[k - 1];
        }
      }
    }
  }

  /** With interval 1 from 0, the ticks are 0, 1, ..., end - 1. */
  lemma UnitTicks(end: nat)
    ensures Ticks(0, end, 1) == seq(end, k => k)
  {
    var ticks := Ticks(0, end, 1);
    TicksEnumerate(0, end, 1);
    assert |ticks| == 0 || ticks[|ticks| - 1] == |ticks| - 1 < end;
    assert |ticks| == end;
    assert forall k | 0 <= k < end :: ticks[k] == k;
  }

  /** With every parameter absent, the sampler visits seconds 0 to 59. */
  lemma DefaultTicks(request: ProcessVideoRequest)
    requires request.startTime.None? && request.endTime.None? && request.frameInterval.None?
    ensures SamplingEnds(request)
    ensures Ticks(StartTime(request), EndTime(request), FrameInterval(request)) == seq(60, k => k)
  {
    UnitTicks(60);
  }

  /** start 0, end 5, interval 2 visits 0, 2 and 4. */
  lemma TicksExample()
    ensures Ticks(0, 5, 2) == [0, 2, 4]
  {
  }

  /** A range with start at or past end visits nothing, whatever the interval. */
  lemma TicksEmpty(start: int, end: int, interval: int)
    requires start >= end
    ensures Ticks(start, end, interval) == []
  {
  }

  /** A preset rectangle passed where an ROI is expected: it has no type. */
  function PresetRoi(r: Rect): ROI {
    ROI(r.x, r.y, r.width, r.height, None)
  }

  /** One region read: crop the frame to the preset, then hand the crop and
      the same absolute rectangle to processImage. */
  function RoiReading(s: ServiceState, frame: Bytes, preset: Preset, media: Media, recognize: Recognizer): Result<OCRResult> {
    match media.extractRoi(frame, preset.rect)
    case Failure(e) => Failure(e)
    case Success(roiFrame) => ProcessImageResult(s, roiFrame, Some(PresetRoi(preset.rect)), recognize)
  }

  /** The map over the preset keys: one settled reading per preset, in order. */
  function Readings(s: ServiceState, frame: Bytes, presets: seq<Preset>, media: Media, recognize: Recognizer): seq<Result<OCRResult>> {
    seq(|presets|, k requires 0 <= k < |presets| => RoiReading(s, frame, presets[k], media, recognize))
  }

  /** Promise.all over settled results: every value in order, or the first
      failure. */
  function All<T>(rs: seq<Result<T>>): (r: Result<seq<T>>)
    ensures r.Success? ==> |r.value| == |rs|
  {
    if rs == [] then Success([])
    else
      match rs[0]
      case Failure(e) => Failure(e)
      case Success(v) =>
        match All(rs[1..])
        case Failure(e) => Failure(e)
        case Success(vs) => Success([v] + vs)
  }

  /** All succeeds exactly when every result does, and then lists their values. */
  lemma {:induction false} AllSucceeds<T>(rs: seq<Result<T>>)
    ensures All(rs).Success? <==> forall k | 0 <= k < |rs| :: rs[k].Success?
    ensures All(rs).Success? ==> forall k | 0 <= k < |rs| :: All(rs).value[k] == rs[k].value
  {
    if rs != [] {
      AllSucceeds(rs[1..]);
      if !rs[0].Success? {
        assert !(forall k | 0 <= k < |rs| :: rs[k].Success?);
      } else if All(rs[1..]).Success? {
        forall k | 0 <= k < |rs| ensures rs[k].Success? && All(rs).value[k] == rs[k].value {
          if k > 0 {
            assert rs[k] == rs[1..][k - 1];
          }
        }
      } else {
        var k :| 0 <= k < |rs[1..]| && !rs[1..][k].Success?;
        assert rs[k + 1] == rs[1..][k];
      }
    }
  }

  /** All fails with the first failure in order. */
  lemma {:induction false} AllFirstFailure<T>(rs: seq<Result<T>>, k: nat)
    requires k < |rs| && rs[k].Failure?
    requires forall j | 0 <= j < k :: rs[j].Success?
    ensures All(rs) == Failure(rs[k].error)
  {
    if k > 0 {
      assert forall j | 0 <= j < k - 1 :: rs[1..][j] == rs[j + 1];
      AllFirstFailure(rs[1..], k - 1);
    }
  }

  /** The gold fields: `text || "0"`. */
  function GoldText(text: string): string {
    if text == "" then "0" else text
  }

  /** The snapshot built from the five readings in destructuring order. */
  function AssembleGameData(readings: seq<OCRResult>, timestamp: int): LoLGameData
    requires |readings| == 5
  {
    LoLGameData(
      timer := readings[0].text,
      blueKills := ParseIntOrZero(readings[1].text),
      redKills := ParseIntOrZero(readings[2].text),
      blueGold := GoldText(readings[3].text),
      redGold := GoldText(readings[4].text),
      timestamp := timestamp)
  }

  /** extractGameData(frame, timestamp) with the OCR service in state `s`. */
  function GameData(s: ServiceState, frame: Bytes, timestamp: int, media: Media, recognize: Recognizer): Result<LoLGameData> {
    match All(Readings(s, frame, LolRoiPresets(), media, recognize))
    case Failure(e) => Failure(e)
    case Success(readings) => Success(AssembleGameData(readings, timestamp))
  }

  /** The reading of the k-th preset; by PresetKeyOrder, k = 0 .. 4 are the
      timer, blue kills, red kills, blue gold and red gold regions. */
  function Region(s: ServiceState, frame: Bytes, k: nat, media: Media, recognize: Recognizer): Result<OCRResult>
    requires k < 5
  {
    RoiReading(s, frame, LolRoiPresets()[k], media, recognize)
  }

  /** The reading of the k-th preset crops the frame to that preset's
      rectangle, then hands the crop to the recogniser together with the same
      absolute rectangle, and echoes the preset, untyped, as the ROI. */
  lemma RegionReading(s: ServiceState, frame: Bytes, k: nat, media: Media, recognize: Recognizer)
    requires k < 5
    ensures var p := LolRoiPresets()[k].rect;
      media.extractRoi(frame, p).Failure? ==>
        Region(s, frame, k, media, recognize) == Failure(media.extractRoi(frame, p).error)
    ensures var p := LolRoiPresets()[k].rect;
      media.extractRoi(frame, p).Success? && s.Ready() ==>
        Region(s, frame, k, media, recognize) ==
          match recognize(s.worker.value, media.extractRoi(frame, p).value, Some(Rectangle(p.y, p.x, p.width, p.height)))
          case Failure(e) => Failure(e)
          case Success(d) => Success(OCRResult(Trim(d.text), d.confidence, None, Some(ROI(p.x, p.y, p.width, p.height, None))))
    ensures var p := LolRoiPresets()[k].rect;
      Region(s, frame, k, media, recognize).Success? ==>
        Region(s, frame, k, media, recognize).value.roi == Some(ROI(p.x, p.y, p.width, p.height, None))
  {
    var p := LolRoiPresets()[k].rect;
    if media.extractRoi(frame, p).Success? {
      var crop := media.extractRoi(frame, p).value;
      ProcessImageGuard(s, crop, Some(PresetRoi(p)), recognize);
      if s.Ready() {
        ProcessImageSuccess(s, crop, Some(PresetRoi(p)), recognize);
      }
    }
  }

  /** The k-th key of the preset table feeds the k-th snapshot slot; the
      timestamp is the tick; a snapshot exists only if all five regions read. */
  lemma GameDataFields(s: ServiceState, frame: Bytes, timestamp: int, media: Media, recognize: Recognizer)
    ensures GameData(s, frame, timestamp, media, recognize).Success? <==>
      forall k | 0 <= k < 5 :: Region(s, frame, k, media, recognize).Success?
    ensures GameData(s, frame, timestamp, media, recognize).Success? ==>
      var d := GameData(s, frame, timestamp, media, recognize).value;
      && d.timer == Region(s, frame, 0, media, recognize).value.text
      && d.blueKills == ParseIntOrZero(Region(s, frame, 1, media, recognize).value.text)
      && d.redKills == ParseIntOrZero(Region(s, frame, 2, media, recognize).value.text)
      && d.blueGold == GoldText(Region(s, frame, 3, media, recognize).value.text)
      && d.redGold == GoldText(Region(s, frame, 4, media, recognize).value.text)
      && d.timestamp == timestamp
  {
    var rs := Readings(s, frame, LolRoiPresets(), media, recognize);
    assert forall k | 0 <= k < 5 :: rs[k] == Region(s, frame, k, media, recognize);
    AllSucceeds(rs);
  }

  /** Without a ready OCR service no snapshot can be assembled. */
  lemma GameDataNeedsReady(s: ServiceState, frame: Bytes, timestamp: int, media: Media, recognize: Recognizer)
    requires !s.Ready()
    ensures GameData(s, frame, timestamp, media, recognize).Failure?
  {
    var rs := Readings(s, frame, LolRoiPresets(), media, recognize);
    assert rs[0].Failure?;
    AllSucceeds(rs);
  }

  /** One tick of the sampling loop: extract, resize, read. */
  function TickResult(s: ServiceState, path: string, time: int, media: Media, recognize: Recognizer): Result<LoLGameData> {
    match media.extractFrame(path, time)
    case Failure(e) => Failure(e)
    case Success(raw) =>
      match media.resize(raw, FrameWidth, FrameHeight)
      case Failure(e) => Failure(e)
      case Success(frame) => GameData(s, frame, time, media, recognize)
  }

  /** A sampled snapshot carries its tick as timestamp; with an OCR service
      that is not ready no tick succeeds. */
  lemma TickStamped(s: ServiceState, path: string, media: Media, recognize: Recognizer)
    ensures forall time | TickResult(s, path, time, media, recognize).Success? ::
      TickResult(s, path, time, media, recognize).value.timestamp == time
    ensures !s.Ready() ==> forall time :: TickResult(s, path, time, media, recognize).Failure?
  {
    forall time | !s.Ready() ensures TickResult(s, path, time, media, recognize).Failure? {
      match media.extractFrame(path, time)
      case Failure(_) =>
      case Success(raw) =>
        match media.resize(raw, FrameWidth, FrameHeight)
        case Failure(_) =>
        case Success(frame) => GameDataNeedsReady(s, frame, time, media, recognize);
    }
  }

  /** What one tick adds to the results: its snapshot, or nothing. */
  function Kept(r: Result<LoLGameData>): seq<LoLGameData> {
    if r.Success? then [r.value] else []
  }

  /** What the sampling loop keeps from a sequence of per-tick results: the
      snapshot of each success, in order, and nothing for a failure. */
  function Collected(rs: seq<Result<LoLGameData>>): (results: seq<LoLGameData>)
    ensures |results| <= |rs|
  {
    if rs == [] then [] else Kept(rs[0]) + Collected(rs[1..])
  }

  /** A snapshot is kept exactly when some tick produced it. */
  lemma {:induction false} CollectedExactly(rs: seq<Result<LoLGameData>>)
    ensures forall d :: d in Collected(rs) <==> exists k | 0 <= k < |rs| :: rs[k] == Success(d)
  {
    if rs != [] {
      var rest := rs[1..];
      CollectedExactly(rest);
      forall d ensures (exists k | 0 <= k < |rs| :: rs[k] == Success(d)) <==>
        (rs[0] == Success(d) || exists k | 0 <= k < |rest| :: rest[k] == Success(d))
      {
        if exists k | 0 <= k < |rs| :: rs[k] == Success(d) {
          var k :| 0 <= k < |rs| && rs[k] == Success(d);
          if k > 0 {
            assert rest[k - 1] == rs[k];
          }
        }
        if exists k | 0 <= k < |rest| :: rest[k] == Success(d) {
          var k :| 0 <= k < |rest| && rest[k] == Success(d);
          assert rs[k + 1] == rest[k];
        }
      }
    }
  }

  /** The results of the ticks, each stamped with its own tick: every kept
      timestamp is one of the ticks. */
  predicate StampedBy(rs: seq<Result<LoLGameData>>, ticks: seq<int>) {
    |rs| == |ticks| && forall k | 0 <= k < |rs| && rs[k].Success? :: rs[k].value.timestamp == ticks[k]
  }

  lemma {:induction false} CollectedStampsAreTicks(rs: seq<Result<LoLGameData>>, ticks: seq<int>)
    requires StampedBy(rs, ticks)
    ensures forall i | 0 <= i < |Collected(rs)| :: Collected(rs)[i].timestamp in ticks
  {
    if rs != [] {
      var rest, later := rs[1..], ticks[1..];
      assert forall k | 0 <= k < |rest| :: rest[k] == rs[k + 1] && later[k] == ticks[k + 1];
      CollectedStampsAreTicks(rest, later);
      var head := Kept(rs[0]);
      var tail := Collected(rest);
      var results: seq<LoLGameData> := head + tail;
      assert Collected(rs) == results;
      forall i | 0 <= i < |results| ensures results[i].timestamp in ticks {
        if i < |head| {
          assert results[i] == rs[0].value;
        } else {
          assert results[i] == tail[i - |head|];
          var j :| 0 <= j < |later| && later[j] == tail[i - |head|].timestamp;
          assert ticks[j + 1] == later[j];
        }
      }
    }
  }

  /** With results stamped by increasing ticks, the kept timestamps increase. */
  lemma {:induction false} CollectedInTickOrder(rs: seq<Result<LoLGameData>>, ticks: seq<int>)
    requires StampedBy(rs, ticks)
    requires forall j, k | 0 <= j < k < |ticks| :: ticks[j] < ticks[k]
    ensures forall i, j | 0 <= i < j < |Collected(rs)| :: Collected(rs)[i].timestamp < Collected(rs)[j].timestamp
  {
    if rs != [] {
      var rest, later := rs[1..], ticks[1..];
      assert forall k | 0 <= k < |rest| :: rest[k] == rs[k + 1] && later[k] == ticks[k + 1];
      CollectedInTickOrder(rest, later);
      CollectedStampsAreTicks(rest, later);
      var head := Kept(rs[0]);
      var tail := Collected(rest);
      var results := head + tail;
      assert Collected(rs) == results;
      forall i | 0 <= i < |tail| ensures tail[i].timestamp > ticks[0] {
        var j :| 0 <= j < |later| && later[j] == tail[i].timestamp;
        assert ticks[j + 1] == later[j];
      }
      forall i, j | 0 <= i < j < |results| ensures results[i].timestamp < results[j].timestamp {
        assert results[j] == tail[j - |head|];
        if i < |head| {
          assert results[i].timestamp == ticks[0];
        } else {
          assert results[i] == tail[i - |head|];
        }
      }
    }
  }

  /** Each turn of the sampling loop appends the next result's contribution. */
  lemma {:induction false} CollectedSnoc(rs: seq<Result<LoLGameData>>, k: nat)
    requires k < |rs|
    ensures Collected(rs[..k + 1]) == Collected(rs[..k]) + Kept(rs[k])
  {
    if k > 0 {
      CollectedSnoc(rs[1..], k - 1);
      assert rs[..k + 1][1..] == rs[1..][..k];
      assert rs[..k][1..] == rs[1..][..k - 1];
    } else {
      assert rs[..1][1..] == [];
    }
  }

  /** When every tick fails, nothing is kept. */
  lemma {:induction false} CollectedAllFailed(rs: seq<Result<LoLGameData>>)
    requires forall k | 0 <= k < |rs| :: rs[k].Failure?
    ensures Collected(rs) == []
  {
    if rs != [] {
      assert forall k | 0 <= k < |rs[1..]| :: rs[1..][k] == rs[k + 1];
      CollectedAllFailed(rs[1..]);
    }
  }

  /** A failed tick between two good ones adds nothing and does not stop the
      later one. */
  lemma SkippedTick(first: Result<LoLGameData>, failed: Result<LoLGameData>, last: Result<LoLGameData>)
    requires first.Success? && failed.Failure? && last.Success?
    ensures Collected([first, failed, last]) == [first.value, last.value]
  {
    assert [last][1..] == [];
    assert Collected([last]) == [last.value] + Collected([]);
    assert [failed, last][1..] == [last];
    assert Collected([failed, last]) == [] + Collected([last]);
    assert [first, failed, last][1..] == [failed, last];
  }

  /** When the first k regions read and the k-th does not, the snapshot
      fails with the k-th region's error. */
  lemma GameDataFailsAt(s: ServiceState, frame: Bytes, timestamp: int, media: Media, recognize: Recognizer, k: nat)
    requires k < 5
    requires forall j | 0 <= j < k :: Region(s, frame, j, media, recognize).Success?
    requires Region(s, frame, k, media, recognize).Failure?
    ensures GameData(s, frame, timestamp, media, recognize) == Failure(Region(s, frame, k, media, recognize).error)
  {
    var rs := Readings(s, frame, LolRoiPresets(), media, recognize);
    assert forall j | 0 <= j <= k :: rs[j] == Region(s, frame, j, media, recognize);
    AllFirstFailure(rs, k);
  }

  /** When all five regions read, the snapshot is assembled from the readings. */
  lemma GameDataFromReadings(s: ServiceState, frame: Bytes, timestamp: int, media: Media, recognize: Recognizer,
                             readings: seq<OCRResult>)
    requires |readings| == 5
    requires forall j | 0 <= j < 5 :: Region(s, frame, j, media, recognize) == Success(readings[j])
    ensures GameData(s, frame, timestamp, media, recognize) == Success(AssembleGameData(readings, timestamp))
  {
    var rs := Readings(s, frame, LolRoiPresets(), media, recognize);
    assert forall j | 0 <= j < 5 :: rs[j] == Region(s, frame, j, media, recognize);
    AllSucceeds(rs);
    assert All(rs).value == readings;
  }

  /** extractGameData: read the presets in key order through the OCR
      service, then assemble the snapshot. */
  method ExtractGameData(ocr: OcrService, frame: Bytes, timestamp: int, media: Media, recognize: Recognizer)
    returns (r: Result<LoLGameData>)
    ensures r == GameData(ocr.State(), frame, timestamp, media, recognize)
  {
    var presets := LolRoiPresets();
    ghost var s := ocr.State();
    var readings: seq<OCRResult> := [];
    for k := 0 to |presets|
      invariant |readings| == k
      invariant forall j | 0 <= j < k :: Region(s, frame, j, media, recognize) == Success(readings[j])
    {
      var roiFrame := media.extractRoi(frame, presets[k].rect);
      if roiFrame.Failure? {
        assert Region(s, frame, k, media, recognize) == Failure(roiFrame.error);
        GameDataFailsAt(s, frame, timestamp, media, recognize, k);
        return Failure(roiFrame.error);
      }
      var reading := ocr.ProcessImage(roiFrame.value, Some(PresetRoi(presets[k].rect)), recognize);
      assert Region(s, frame, k, media, recognize) == reading;
      if reading.Failure? {
        GameDataFailsAt(s, frame, timestamp, media, recognize, k);
        return Failure(reading.error);
      }
      ghost var prev := readings;
      readings := readings + [reading.value];
      assert readings[k] == reading.value;
      assert forall j | 0 <= j < k :: readings[j] == prev[j];
    }
    GameDataFromReadings(s, frame, timestamp, media, recognize, readings);
    r := Success(AssembleGameData(readings, timestamp));
  }

  /** Where the loop stands: the ticks still to visit are the rest of the
      whole run's ticks from the k-th on, and the next one is `time`. */
  lemma TicksStep(ticks: seq<int>, k: nat, time: int, endTime: int, frameInterval: int)
    requires time < endTime && frameInterval > 0
    requires k <= |ticks| && Ticks(time, endTime, frameInterval) == ticks[k..]
    ensures k < |ticks| && ticks[k] == time
    ensures Ticks(time + frameInterval, endTime, frameInterval) == ticks[k + 1..]
  {
    assert ticks[k..] == [time] + Ticks(time + frameInterval, endTime, frameInterval);
    assert ticks[k + 1..] == ticks[k..][1..];
  }

  /** Once `time` reaches the end, every tick has been visited. */
  lemma TicksDone(ticks: seq<int>, k: nat, time: int, endTime: int, frameInterval: int)
    requires time >= endTime
    requires k <= |ticks| && Ticks(time, endTime, frameInterval) == ticks[k..]
    ensures k == |ticks|
  {
  }

  /** One turn of the sampling loop, on the run's ticks and per-tick results:
      `time` is the k-th tick, the ticks still to visit move on by one, and
      the results gathered so far grow by the k-th result's contribution. */
  lemma SampleTurn(ticks: seq<int>, rs: seq<Result<LoLGameData>>, k: nat, time: int, endTime: int, frameInterval: int,
                   results: seq<LoLGameData>)
    requires time < endTime && frameInterval > 0
    requires k <= |ticks| && Ticks(time, endTime, frameInterval) == ticks[k..]
    requires |rs| == |ticks| && results == Collected(rs[..k])
    ensures k < |ticks| && ticks[k] == time
    ensures Ticks(time + frameInterval, endTime, frameInterval) == ticks[k + 1..]
    ensures results + Kept(rs[k]) == Collected(rs[..k + 1])
  {
    TicksStep(ticks, k, time, endTime, frameInterval);
    CollectedSnoc(rs, k);
  }

  /** The result of every tick, in tick order. */
  function TickResults(s: ServiceState, path: string, ticks: seq<int>, media: Media, recognize: Recognizer)
    : (rs: seq<Result<LoLGameData>>)
    ensures |rs| == |ticks|
  {
    if ticks == [] then []
    else [TickResult(s, path, ticks[0], media, recognize)] + TickResults(s, path, ticks[1..], media, recognize)
  }

  /** The k-th result is the k-th tick's. */
  lemma {:induction false} TickResultsAt(s: ServiceState, path: string, ticks: seq<int>, media: Media, recognize: Recognizer, k: nat)
    requires k < |ticks|
    ensures TickResults(s, path, ticks, media, recognize)[k] == TickResult(s, path, ticks[k], media, recognize)
  {
    if k > 0 {
      TickResultsAt(s, path, ticks[1..], media, recognize, k - 1);
      assert ticks[1..][k - 1] == ticks[k];
    }
  }

  /** The body of one loop turn, whose rejections the loop catches: extract
      the frame at `time`, resize it to the preset frame size and read it. */
  method ReadTick(ocr: OcrService, path: string, time: int, media: Media, recognize: Recognizer)
    returns (gameData: Result<LoLGameData>)
    ensures gameData == TickResult(ocr.State(), path, time, media, recognize)
  {
    var frameBuffer := media.extractFrame(path, time);
    if frameBuffer.Failure? {
      return Failure(frameBuffer.error);
    }
    var frame := media.resize(frameBuffer.value, FrameWidth, FrameHeight);
    if frame.Failure? {
      return Failure(frame.error);
    }
    gameData := ExtractGameData(ocr, frame.value, time, media, recognize);
  }

  /** One turn of the sampling loop at the k-th tick of a run: read the
      tick, push its snapshot on success, swallow its failure. */
  method SampleTick(ocr: OcrService, path: string, time: int, media: Media, recognize: Recognizer,
                    results: seq<LoLGameData>, ghost rs: seq<Result<LoLGameData>>, ghost ticks: seq<int>, ghost k: nat)
    returns (next: seq<LoLGameData>)
    requires rs == TickResults(ocr.State(), path, ticks, media, recognize)
    requires k < |ticks| && ticks[k] == time
    ensures next == results + Kept(rs[k])
  {
    TickResultsAt(ocr.State(), path, ticks, media, recognize, k);
    var gameData := ReadTick(ocr, path, time, media, recognize);
    next := results;
    if gameData.Success? {
      next := next + [gameData.value];
    } else {
      assert next + [] == next;
    }
  }

  /** The snapshots a sampling run returns, with the OCR service in state `s`. */
  function Sampled(s: ServiceState, request: ProcessVideoRequest, media: Media, recognize: Recognizer): seq<LoLGameData>
    requires SamplingEnds(request)
  {
    Collected(TickResults(s, request.videoPath, Ticks(StartTime(request), EndTime(request), FrameInterval(request)), media, recognize))
  }

  /** processVideoFrames: take the request's bounds, defaulting the missing
      ones, and sample that range. */
  method ProcessVideoFrames(ocr: OcrService, request: ProcessVideoRequest, media: Media, recognize: Recognizer)
    returns (results: seq<LoLGameData>)
    requires SamplingEnds(request)
    ensures results == Sampled(ocr.State(), request, media, recognize)
  {
    ghost var rs := TickResults(ocr.State(), request.videoPath, Ticks(StartTime(request), EndTime(request), FrameInterval(request)), media, recognize);
    results := SampleTicks(ocr, request.videoPath, StartTime(request), EndTime(request), FrameInterval(request), media, recognize, rs);
  }

  /** The loop of processVideoFrames: visit every tick from `startTime` below
      `endTime`, keep the snapshot of each tick that succeeds and skip each
      tick that fails. */
  method SampleTicks(ocr: OcrService, path: string, startTime: int, endTime: int, frameInterval: int,
                     media: Media, recognize: Recognizer, ghost rs: seq<Result<LoLGameData>>)
    returns (results: seq<LoLGameData>)
    requires frameInterval > 0 || startTime >= endTime
    requires rs == TickResults(ocr.State(), path, Ticks(startTime, endTime, frameInterval), media, recognize)
    ensures results == Collected(rs)
  {
    ghost var ticks := Ticks(startTime, endTime, frameInterval);
    ghost var k := 0;
    results := [];
    var time := startTime;
    while time < endTime
      invariant frameInterval > 0 || time >= endTime
      invariant 0 <= k <= |ticks| && Ticks(time, endTime, frameInterval) == ticks[k..]
      invariant results == Collected(rs[..k])
      decreases endTime - time
    {
      SampleTurn(ticks, rs, k, time, endTime, frameInterval, results);
      results := SampleTick(ocr, path, time, media, recognize, results, rs, ticks, k);
      k := k + 1;
      time := time + frameInterval;
    }
    TicksDone(ticks, k, time, endTime, frameInterval);
    assert rs[..k] == rs;
  }

  /** Each snapshot the sampler returns is stamped with one of the ticks, and
      reading the frame at that tick produced exactly that snapshot. */
  lemma SamplerStamped(s: ServiceState, request: ProcessVideoRequest, media: Media, recognize: Recognizer)
    requires SamplingEnds(request)
    ensures var ticks := Ticks(StartTime(request), EndTime(request), FrameInterval(request));
      var results := Sampled(s, request, media, recognize);
      forall i | 0 <= i < |results| :: results[i].timestamp in ticks
        && TickResult(s, request.videoPath, results[i].timestamp, media, recognize) == Success(results[i])
  {
    var ticks := Ticks(StartTime(request), EndTime(request), FrameInterval(request));
    var rs := TickResults(s, request.videoPath, ticks, media, recognize);
    forall k | 0 <= k < |ticks| ensures rs[k] == TickResult(s, request.videoPath, ticks[k], media, recognize) {
      TickResultsAt(s, request.videoPath, ticks, media, recognize, k);
    }
    TickStamped(s, request.videoPath, media, recognize);
    CollectedExactly(rs);
    var results := Collected(rs);
    forall i | 0 <= i < |results|
      ensures results[i].timestamp in ticks
      ensures TickResult(s, request.videoPath, results[i].timestamp, media, recognize) == Success(results[i])
    {
      assert results[i] in results;
      var k :| 0 <= k < |rs| && rs[k] == Success(results[i]);
      assert TickResult(s, request.videoPath, ticks[k], media, recognize) == Success(results[i]);
    }
  }

  /** The sampler returns its snapshots in increasing timestamp order. */
  lemma SamplerOrdered(s: ServiceState, request: ProcessVideoRequest, media: Media, recognize: Recognizer)
    requires SamplingEnds(request)
    ensures var results := Sampled(s, request, media, recognize);
      forall i, j | 0 <= i < j < |results| :: results[i].timestamp < results[j].timestamp
  {
    var ticks := Ticks(StartTime(request), EndTime(request), FrameInterval(request));
    var rs := TickResults(s, request.videoPath, ticks, media, recognize);
    TicksIncreasing(StartTime(request), EndTime(request), FrameInterval(request));
    forall k | 0 <= k < |ticks| ensures rs[k] == TickResult(s, request.videoPath, ticks[k], media, recognize) {
      TickResultsAt(s, request.videoPath, ticks, media, recognize, k);
    }
    TickStamped(s, request.videoPath, media, recognize);
    assert StampedBy(rs, ticks);
    CollectedInTickOrder(rs, ticks);
  }

  /** With an OCR service that is not ready, the sampler returns nothing. */
  lemma SamplerNeedsReady(s: ServiceState, request: ProcessVideoRequest, media: Media, recognize: Recognizer)
    requires SamplingEnds(request)
    requires !s.Ready()
    ensures Sampled(s, request, media, recognize) == []
  {
    var ticks := Ticks(StartTime(request), EndTime(request), FrameInterval(request));
    var rs := TickResults(s, request.videoPath, ticks, media, recognize);
    forall k | 0 <= k < |ticks| ensures rs[k] == TickResult(s, request.videoPath, ticks[k], media, recognize) {
      TickResultsAt(s, request.videoPath, ticks, media, recognize, k);
    }
    TickStamped(s, request.videoPath, media, recognize);
    CollectedAllFailed(rs);
  }

  /** The characters the gold filter keeps: digits, '.', and k in either case. */
  predicate IsGoldChar(c: char) {
    IsDecimalDigit(c) || c == '.' || c == 'k' || c == 'K'
  }

  /** goldText.replace(/[^0-9.k]/gi, ""). */
  function GoldFilter(s: string): (r: string)
    ensures |r| <= |s|
    ensures forall i | 0 <= i < |r| :: IsGoldChar(r[i])
  {
    if s == [] then []
    else (if IsGoldChar(s[0]) then [s[0]] else []) + GoldFilter(s[1..])
  }

  /** The filter works character by character, so it keeps the kept
      characters in their original order. */
  lemma {:induction false} GoldFilterAppend(a: string, b: string)
    ensures GoldFilter(a + b) == GoldFilter(a) + GoldFilter(b)
  {
    if a != [] {
      assert (a + b)[1..] == a[1..] + b;
      GoldFilterAppend(a[1..], b);
    } else {
      assert a + b == b;
    }
  }

  /** Exactly the gold characters are kept, each as often as it occurs. */
  lemma {:induction false} GoldFilterCounts(s: string)
    ensures forall c | IsGoldChar(c) :: multiset(GoldFilter(s))[c] == multiset(s)[c]
    ensures forall c | !IsGoldChar(c) :: multiset(GoldFilter(s))[c] == 0
  {
    if s != [] {
      GoldFilterCounts(s[1..]);
      assert s == [s[0]] + s[1..];
    }
  }

  /** The filter leaves a text alone exactly when it has only gold characters. */
  lemma {:induction false} GoldFilterFixed(s: string)
    ensures GoldFilter(s) == s <==> forall i | 0 <= i < |s| :: IsGoldChar(s[i])
  {
    if s != [] {
      GoldFilterFixed(s[1..]);
      if !IsGoldChar(s[0]) {
        assert |GoldFilter(s)| < |s|;
      } else if forall i | 0 <= i < |s| :: IsGoldChar(s[i]) {
        assert forall i | 0 <= i < |s[1..]| :: IsGoldChar(s[1..][i]);
        assert s == [s[0]] + s[1..];
      }
    }
  }

  /** Filtering twice is filtering once. */
  lemma GoldFilterIdempotent(s: string)
    ensures GoldFilter(GoldFilter(s)) == GoldFilter(s)
  {
    GoldFilterFixed(GoldFilter(s));
  }

  /** Example: "abc" has no gold character and filters to the empty text. */
  lemma GoldFilterDropsAll()
    ensures GoldFilter("abc") == ""
  {
    assert "abc"[1..] == "bc" && "bc"[1..] == "c" && "c"[1..] == [];
  }

  /** Example: "15.1K" is all gold characters and passes unchanged, uppercase K included (see GoldFilterFixed). */
  lemma GoldFilterKeepsUpperK()
    ensures GoldFilter("15.1K") == "15.1K"
  {
    assert forall i | 0 <= i < 5 :: IsGoldChar("15.1K"[i]);
    GoldFilterFixed("15.1K");
  }

  /** Example: white space, a separator and a currency sign are dropped, digits and k kept. */
  lemma GoldFilterDropsNoise()
    ensures GoldFilter(" 12,3k$") == "123k"
  {
    assert " 12,3k$" == " 12," + "3k$";
    GoldFilterAppend(" 12,", "3k$");
    assert " 12,"[1..] == "12," && "12,"[1..] == "2," && "2,"[1..] == "," && ","[1..] == [];
    assert GoldFilter(" 12,") == "12";
    assert "3k$"[1..] == "k$" && "k$"[1..] == "$" && "$"[1..] == [];
    assert GoldFilter("3k$") == "3k";
  }

  /** str.replace("k", ""): drop the first 'k' if there is one. */
  function RemoveFirstK(s: string): string {
    if s == [] then []
    else if s[0] == 'k' then s[1..]
    else [s[0]] + RemoveFirstK(s[1..])
  }

  /** Without a 'k' the text is unchanged; otherwise exactly one 'k' goes and
      every other character stays. */
  lemma {:induction false} RemoveFirstKRemovesOne(s: string)
    ensures 'k' !in s ==> RemoveFirstK(s) == s
    ensures 'k' in s ==> |RemoveFirstK(s)| == |s| - 1 && multiset(RemoveFirstK(s)) == multiset(s) - multiset{'k'}
  {
    if s != [] {
      assert s == [s[0]] + s[1..];
      if s[0] != 'k' {
        RemoveFirstKRemovesOne(s[1..]);
      }
    }
  }

  /** The 'k' that goes is the first one, and the characters around it keep
      their order. */
  lemma {:induction false} RemoveFirstKAt(s: string, i: nat)
    requires i < |s| && s[i] == 'k' && 'k' !in s[..i]
    ensures RemoveFirstK(s) == s[..i] + s[i + 1..]
  {
    if i == 0 {
      assert s[..0] == [];
    } else {
      assert s[0] == s[..i][0] && s[0] != 'k';
      var t := s[1..];
      assert t[..i - 1] == s[1..i];
      assert 'k' !in t[..i - 1];
      RemoveFirstKAt(t, i - 1);
      assert s[..i] == [s[0]] + t[..i - 1];
      assert s[i + 1..] == t[i..];
    }
  }

  /** parseGold's result: the integer branch's value, or the text its float
      branch hands to parseFloat before scaling by 1000. */
  datatype GoldValue = Whole(n: int) | Thousands(floatText: string)

  /** parseGold(goldText). */
  function ParseGold(goldText: string): GoldValue {
    var cleaned := GoldFilter(goldText);
    if 'k' in cleaned then Thousands(RemoveFirstK(cleaned)) else Whole(ParseIntOrZero(cleaned))
  }

  /** Without a lowercase k the value is the leading decimal digit run of the
      filtered text (0 if there is none): the filter leaves no white space,
      sign or "x" for parseInt to interpret. */
  lemma ParseGoldWhole(goldText: string)
    requires 'k' !in GoldFilter(goldText)
    ensures ParseGold(goldText) == Whole(DigitsValue(LeadingDigits(GoldFilter(goldText), 10), 10))
  {
    ParseIntOfGoldText(GoldFilter(goldText));
  }

  /** parseInt on a text of gold characters reads its leading decimal run. */
  lemma ParseIntOfGoldText(t: string)
    requires forall i | 0 <= i < |t| :: IsGoldChar(t[i])
    ensures ParseIntOrZero(t) == DigitsValue(LeadingDigits(t, 10), 10)
  {
    if t == [] {
      ParseIntNonNumeric(t);
    } else if IsDecimalDigit(t[0]) {
      assert !HasHexPrefix(t) by {
        if |t| >= 2 {
          assert IsGoldChar(t[1]);
        }
      }
      ParseIntDecimal(t);
    } else {
      ParseIntNonNumeric(t);
      assert LeadingDigits(t, 10) == [];
    }
  }

  /** An uppercase K survives the filter but does not take the k branch. */
  lemma ParseGoldUpperK()
    ensures ParseGold("12K") == Whole(12)
  {
    assert GoldFilter("12K") == "12K" by {
      assert forall i | 0 <= i < 3 :: IsGoldChar("12K"[i]);
      GoldFilterFixed("12K");
    }
    assert 'k' !in "12K";
    ParseGoldWhole("12K");
    assert LeadingDigits("12K", 10) == "12" by {
      assert "12K"[1..] == "2K" && "2K"[1..] == "K";
      assert LeadingDigits("K", 10) == [];
    }
    assert DigitsValue("12", 10) == 12 by { assert "12"[..1] == "1"; }
  }

  /** Without a k the integer branch stops at the decimal point. */
  lemma ParseGoldFraction()
    ensures ParseGold("15.1") == Whole(15)
  {
    assert GoldFilter("15.1") == "15.1" by {
      assert forall i | 0 <= i < 4 :: IsGoldChar("15.1"[i]);
      GoldFilterFixed("15.1");
    }
    assert 'k' !in "15.1";
    ParseGoldWhole("15.1");
    LeadingRunOfFraction();
  }

  /** The leading decimal run of "15.1" is worth 15. */
  lemma LeadingRunOfFraction()
    ensures DigitsValue(LeadingDigits("15.1", 10), 10) == 15
  {
    assert LeadingDigits("15.1", 10) == "15" by {
      assert "15.1"[1..] == "5.1" && "5.1"[1..] == ".1";
      assert LeadingDigits(".1", 10) == [];
      assert LeadingDigits("5.1", 10) == "5";
    }
    assert DigitsValue("15", 10) == 15 by { assert "15"[..1] == "1"; }
  }

  /** A reading with no gold character at all is worth 0. */
  lemma ParseGoldNoDigits(goldText: string)
    requires forall i | 0 <= i < |goldText| :: !IsGoldChar(goldText[i])
    ensures ParseGold(goldText) == Whole(0)
  {
    GoldFilterCounts(goldText);
    ParseIntNonNumeric(GoldFilter(goldText));
  }

  /** A lowercase k takes the thousands branch with that k removed. */
  lemma ParseGoldThousandsExample()
    ensures ParseGold("1.5k") == Thousands("1.5")
  {
    assert GoldFilter("1.5k") == "1.5k" by {
      assert "1.5k"[1..] == ".5k" && ".5k"[1..] == "5k" && "5k"[1..] == "k" && "k"[1..] == [];
      assert GoldFilter("k") == "k";
      assert GoldFilter("5k") == "5k";
      assert GoldFilter(".5k") == ".5k";
    }
    assert "1.5k"[3] == 'k';
    assert RemoveFirstK("1.5k") == "1.5" by {
      assert "1.5k"[1..] == ".5k" && ".5k"[1..] == "5k" && "5k"[1..] == "k";
      assert RemoveFirstK("5k") == "5";
      assert RemoveFirstK(".5k") == ".5";
    }
  }

  /** Every preset lies inside the frame the video path resizes to. */
  lemma PresetsInsideFrame()
    ensures forall i | 0 <= i < |LolRoiPresets()| :: FitsIn(LolRoiPresets()[i].rect, FrameWidth, FrameHeight)
  {
    var p := LolRoiPresets();
    assert FitsIn(p[0].rect, FrameWidth, FrameHeight) && FitsIn(p[1].rect, FrameWidth, FrameHeight);
    assert FitsIn(p[2].rect, FrameWidth, FrameHeight) && FitsIn(p[3].rect, FrameWidth, FrameHeight);
    assert FitsIn(p[4].rect, FrameWidth, FrameHeight);
  }
}
