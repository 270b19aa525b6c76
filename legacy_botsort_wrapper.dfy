/**
 * The older header-only BoTSORT adapter (include/BoTSORTWrapper.hpp).  It
 * keys the class filter on class_index, builds corner-format botsort
 * Detections, and runs botsort::BoTSORT::track on them and the frame.
 */
module LegacyBoTSORTAdapter {
  import opened Types
  import opened Seqs
  import opened Config

  /** botsort::Detection: a float box, a class id and a confidence. */
  datatype BotDetection = BotDetection(bboxTlwh: RectF, classId: int, confidence: real)

  /** A botsort track as the adapter reads it: track_id and get_tlwh(). */
  datatype BotTrack = BotTrack(trackId: int, tlwh: Tlwh)

  /**
   * The unseen body of botsort::BoTSORT::track: the tracks it returns, given
   * its four configuration paths and every (detections, frame) pair it has
   * been handed so far.
   */
  type BoTSORTTrack = (string, string, string, string, seq<(seq<BotDetection>, Frame)>) -> seq<BotTrack>

  /** botsort::BoTSORT, seen from outside. */
  class BoTSORT {
    const trackerConfigPath: string
    const gmcConfigPath: string
    const reidConfigPath: string
    const reidOnnxModelPath: string
    const track: BoTSORTTrack
    var received: seq<(seq<BotDetection>, Frame)>

    constructor (trackerConfigPath: string, gmcConfigPath: string, reidConfigPath: string,
                 reidOnnxModelPath: string, track: BoTSORTTrack)
      ensures this.trackerConfigPath == trackerConfigPath && this.gmcConfigPath == gmcConfigPath
      ensures this.reidConfigPath == reidConfigPath && this.reidOnnxModelPath == reidOnnxModelPath
      ensures this.track == track && received == []
    {
      this.trackerConfigPath, this.gmcConfigPath := trackerConfigPath, gmcConfigPath;
      this.reidConfigPath, this.reidOnnxModelPath := reidConfigPath, reidOnnxModelPath;
      this.track := track;
      received := [];
    }

    /** The tracks the engine reports after the frames it has received. */
    function Tracks(): seq<BotTrack>
      reads this
    {
      track(trackerConfigPath, gmcConfigPath, reidConfigPath, reidOnnxModelPath, received)
    }

    method Track(detections: seq<BotDetection>, frame: Frame) returns (tracks: seq<BotTrack>)
      modifies this
      ensures received == old(received) + [(detections, frame)]
      ensures tracks == Tracks()
    {
      received := received + [(detections, frame)];
      tracks := track(trackerConfigPath, gmcConfigPath, reidConfigPath, reidOnnxModelPath, received);
    }
  }

  /**
   * One detection as a botsort Detection: the box spanned by the corners
   * (x, y) and (x + width, y + height), with class id and confidence copied.
   */
  function ToBotDetection(d: LegacyDetection): BotDetection
  {
    BotDetection(
      RectFromCorners(d.x as real, d.y as real, (d.x + d.width) as real, (d.y + d.height) as real),
      d.classIndex, d.confidence)
  }

  /** What convertBbox produces from one frame's detections. */
  function ConvertedDetections(classes: set<int>, detections: seq<LegacyDetection>): seq<BotDetection>
  {
    Map(Filter(detections, ClassIndexTracked(classes)), ToBotDetection)
  }

  /**
   * convertBbox turns exactly the detections of a configured class into
   * botsort Detections, never more than there are detections; each carries
   * its detection's class index and confidence, and for a size that is not
   * negative its box is the detection's (x, y, width, height).
   */
  lemma ConvertedDetectionsFacts(classes: set<int>, detections: seq<LegacyDetection>)
    ensures |ConvertedDetections(classes, detections)| <= |detections|
    ensures forall b :: b in ConvertedDetections(classes, detections) <==>
      exists d :: d in detections && d.classIndex in classes && b == ToBotDetection(d)
    ensures forall d: LegacyDetection :: ToBotDetection(d).classId == d.classIndex && ToBotDetection(d).confidence == d.confidence
    ensures forall d: LegacyDetection :: 0 <= d.width && 0 <= d.height ==>
      ToBotDetection(d).bboxTlwh == RectF(d.x as real, d.y as real, d.width as real, d.height as real)
  {
    var kept := Filter(detections, ClassIndexTracked(classes));
    forall b ensures b in ConvertedDetections(classes, detections) <==>
      exists d :: d in detections && d.classIndex in classes && b == ToBotDetection(d)
    {
      MapMembership(kept, ToBotDetection, b);
      forall d ensures d in kept <==> d in detections && d.classIndex in classes {
        FilterMembership(detections, ClassIndexTracked(classes), d);
      }
    }
    forall d: LegacyDetection | 0 <= d.width && 0 <= d.height
      ensures ToBotDetection(d).bboxTlwh == RectF(d.x as real, d.y as real, d.width as real, d.height as real)
    {
      CornersRoundTrip(d.x as real, d.y as real, d.width as real, d.height as real);
    }
  }

  /** One more detection adds its botsort Detection exactly when its class index is configured. */
  lemma ConvertedDetectionsSnoc(classes: set<int>, detections: seq<LegacyDetection>, d: LegacyDetection)
    ensures ConvertedDetections(classes, detections + [d])
         == ConvertedDetections(classes, detections) + if d.classIndex in classes then [ToBotDetection(d)] else []
  {
    FilterSnoc(detections, d, ClassIndexTracked(classes));
    if d.classIndex in classes {
      MapSnoc(Filter(detections, ClassIndexTracked(classes)), d, ToBotDetection);
    }
  }

  /** The converted detections keep the input order. */
  lemma ConvertedDetectionsConcat(classes: set<int>, a: seq<LegacyDetection>, b: seq<LegacyDetection>)
    ensures ConvertedDetections(classes, a + b) == ConvertedDetections(classes, a) + ConvertedDetections(classes, b)
  {
    FilterConcat(a, b, ClassIndexTracked(classes));
    MapConcat(Filter(a, ClassIndexTracked(classes)), Filter(b, ClassIndexTracked(classes)), ToBotDetection);
  }

  class BoTSORTWrapper {
    const tracker: BoTSORT
    const classesToTrack: set<int>

    /** Copies the class set and builds the engine from the four paths, in order. */
    constructor (config: TrackConfig, botsortTrack: BoTSORTTrack)
      ensures classesToTrack == config.classesToTrack && fresh(tracker)
      ensures tracker.trackerConfigPath == config.trackerConfigPath
      ensures tracker.gmcConfigPath == config.gmcConfigPath
      ensures tracker.reidConfigPath == config.reidConfigPath
      ensures tracker.reidOnnxModelPath == config.reidOnnxPath
      ensures tracker.track == botsortTrack && tracker.received == []
    {
      tracker := new BoTSORT(config.trackerConfigPath, config.gmcConfigPath, config.reidConfigPath,
                             config.reidOnnxPath, botsortTrack);
      classesToTrack := config.classesToTrack;
    }

    method ConvertBbox(detectionResults: seq<LegacyDetection>) returns (botsortDetections: seq<BotDetection>)
      ensures botsortDetections == ConvertedDetections(classesToTrack, detectionResults)
    {
      botsortDetections := [];
      for i := 0 to |detectionResults|
        invariant botsortDetections == ConvertedDetections(classesToTrack, detectionResults[..i])
      {
        var detectionResult := detectionResults[i];
        assert detectionResults[..i + 1] == detectionResults[..i] + [detectionResult];
        ConvertedDetectionsSnoc(classesToTrack, detectionResults[..i], detectionResult);
        if detectionResult.classIndex !in classesToTrack {
          continue;
        }
        var xMin: real := detectionResult.x as real;
        var yMin: real := detectionResult.y as real;
        var xMax: real := (detectionResult.x + detectionResult.width) as real;
        var yMax: real := (detectionResult.y + detectionResult.height) as real;
        var botsortDetection := BotDetection(RectFromCorners(xMin, yMin, xMax, yMax),
                                             detectionResult.classIndex, detectionResult.confidence);
        assert botsortDetection == ToBotDetection(detectionResult);
        botsortDetections := botsortDetections + [botsortDetection];
      }
      assert detectionResults[..|detectionResults|] == detectionResults;
    }

    /**
     * One frame: the engine receives the converted detections and the frame
     * (an empty image by default), and the result has one entry per engine
     * track, in order, with its track_id and tlwh[0..3] converted to integers.
     */
    method Update(detections: seq<LegacyDetection>, frame: Frame := []) returns (results: seq<TrackedObject>)
      modifies tracker
      ensures tracker.received == old(tracker.received) + [(ConvertedDetections(classesToTrack, detections), frame)]
      ensures var tracks := tracker.Tracks();
        && |results| == |tracks|
        && forall k :: 0 <= k < |tracks| ==>
             results[k] == TrackedObject(tracks[k].trackId, Trunc(tracks[k].tlwh[0]), Trunc(tracks[k].tlwh[1]),
                                         Trunc(tracks[k].tlwh[2]), Trunc(tracks[k].tlwh[3]))
    {
      var botsortDetections := ConvertBbox(detections);
      var botsortTrackResults := tracker.Track(botsortDetections, frame);
      results := [];
      for i := 0 to |botsortTrackResults|
        invariant |results| == i
        invariant forall k :: 0 <= k < i ==>
          results[k] == TrackedObject(botsortTrackResults[k].trackId, Trunc(botsortTrackResults[k].tlwh[0]),
                                      Trunc(botsortTrackResults[k].tlwh[1]), Trunc(botsortTrackResults[k].tlwh[2]),
                                      Trunc(botsortTrackResults[k].tlwh[3]))
      {
        var res := botsortTrackResults[i];
        var tlwh := res.tlwh;
        var obj := TrackedObject(res.trackId, Trunc(tlwh[0]), Trunc(tlwh[1]), Trunc(tlwh[2]), Trunc(tlwh[3]));
        results := results + [obj];
      }
    }
  }
}
