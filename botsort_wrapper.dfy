/**
 * The BoTSORT adapter (trackers/BoTSORTWrapper.cpp): turn the detections of
 * the configured classes into DetectionBoxes, run BoTSORT on them and the
 * frame, and report its tracks as TrackedObjects with integer boxes.
 */
module BoTSORTAdapter {
  import opened Types
  import opened Seqs
  import opened Config

  /** BoTSORT's detection record: a tlwh vector, a confidence and a class id. */
  datatype DetectionBox = DetectionBox(tlwh: Tlwh, confidence: real, classId: int)

  /** A BoTSORT track: an identity and a tlwh vector. */
  datatype STrackBoTSORT = STrackBoTSORT(trackId: int, tlwh: Tlwh)

  /**
   * The unseen body of BoTSORT::update: the tracks it returns, given its four
   * configuration paths and every (detections, frame) pair it has been handed
   * so far.
   */
  type BoTSORTUpdate = (string, string, string, string, seq<(seq<DetectionBox>, Frame)>) -> seq<STrackBoTSORT>

  /** The BoTSORT engine, seen from outside. */
  class BoTSORT {
    const trackerConfigPath: string
    const gmcConfigPath: string
    const reidConfigPath: string
    const reidOnnxPath: string
    const update: BoTSORTUpdate
    var received: seq<(seq<DetectionBox>, Frame)>

    constructor (trackerConfigPath: string, gmcConfigPath: string, reidConfigPath: string,
                 reidOnnxPath: string, update: BoTSORTUpdate)
      ensures this.trackerConfigPath == trackerConfigPath && this.gmcConfigPath == gmcConfigPath
      ensures this.reidConfigPath == reidConfigPath && this.reidOnnxPath == reidOnnxPath
      ensures this.update == update && received == []
    {
      this.trackerConfigPath, this.gmcConfigPath := trackerConfigPath, gmcConfigPath;
      this.reidConfigPath, this.reidOnnxPath := reidConfigPath, reidOnnxPath;
      this.update := update;
      received := [];
    }

    /** The tracks the engine reports after the frames it has received. */
    function Tracks(): seq<STrackBoTSORT>
      reads this
    {
      update(trackerConfigPath, gmcConfigPath, reidConfigPath, reidOnnxPath, received)
    }

    method Update(detections: seq<DetectionBox>, frame: Frame) returns (tracks: seq<STrackBoTSORT>)
      modifies this
      ensures received == old(received) + [(detections, frame)]
      ensures tracks == Tracks()
    {
      received := received + [(detections, frame)];
      tracks := update(trackerConfigPath, gmcConfigPath, reidConfigPath, reidOnnxPath, received);
    }
  }

  /** One detection as a DetectionBox. */
  function ToDetectionBox(d: Detection): DetectionBox
  {
    DetectionBox([d.bbox.x as real, d.bbox.y as real, d.bbox.width as real, d.bbox.height as real],
                 d.score, d.classLabel)
  }

  /** The boxes the adapter hands to the engine for one frame. */
  function BoTSORTInput(classes: set<int>, detections: seq<Detection>): seq<DetectionBox>
  {
    Map(Filter(detections, LabelTracked(classes)), ToDetectionBox)
  }

  /**
   * Every box handed to the engine is a detection of a configured class whose
   * tlwh is [x, y, width, height], with the score as confidence and the label
   * as class id, and every such detection is handed over; there are never
   * more boxes than detections, and none when no class is configured.
   */
  lemma BoTSORTInputFacts(classes: set<int>, detections: seq<Detection>)
    ensures |BoTSORTInput(classes, detections)| <= |detections|
    ensures forall b :: b in BoTSORTInput(classes, detections) <==>
      exists d :: d in detections && d.classLabel in classes
        && b.tlwh == [d.bbox.x as real, d.bbox.y as real, d.bbox.width as real, d.bbox.height as real]
        && b.confidence == d.score && b.classId == d.classLabel
    ensures classes == {} ==> BoTSORTInput(classes, detections) == []
  {
    var kept := Filter(detections, LabelTracked(classes));
    forall b ensures b in BoTSORTInput(classes, detections) <==>
      exists d :: d in detections && d.classLabel in classes
        && b.tlwh == [d.bbox.x as real, d.bbox.y as real, d.bbox.width as real, d.bbox.height as real]
        && b.confidence == d.score && b.classId == d.classLabel
    {
      MapMembership(kept, ToDetectionBox, b);
      forall d ensures d in kept <==> d in detections && d.classLabel in classes {
        FilterMembership(detections, LabelTracked(classes), d);
      }
    }
  }

  /** One more detection adds its box exactly when its label is configured. */
  lemma BoTSORTInputSnoc(classes: set<int>, detections: seq<Detection>, d: Detection)
    ensures BoTSORTInput(classes, detections + [d])
         == BoTSORTInput(classes, detections) + if d.classLabel in classes then [ToDetectionBox(d)] else []
  {
    FilterSnoc(detections, d, LabelTracked(classes));
    if d.classLabel in classes {
      MapSnoc(Filter(detections, LabelTracked(classes)), d, ToDetectionBox);
    }
  }

  /** The boxes keep the order of the detections they come from. */
  lemma BoTSORTInputConcat(classes: set<int>, a: seq<Detection>, b: seq<Detection>)
    ensures BoTSORTInput(classes, a + b) == BoTSORTInput(classes, a) + BoTSORTInput(classes, b)
  {
    FilterConcat(a, b, LabelTracked(classes));
    MapConcat(Filter(a, LabelTracked(classes)), Filter(b, LabelTracked(classes)), ToDetectionBox);
  }

  class BoTSORTWrapper {
    const config: TrackConfig
    const tracker: BoTSORT

    /** BoTSORT gets the tracker, gmc, reid and onnx paths, in that order. */
    constructor (config: TrackConfig, botsortUpdate: BoTSORTUpdate)
      ensures this.config == config && fresh(tracker)
      ensures tracker.trackerConfigPath == config.trackerConfigPath
      ensures tracker.gmcConfigPath == config.gmcConfigPath
      ensures tracker.reidConfigPath == config.reidConfigPath
      ensures tracker.reidOnnxPath == config.reidOnnxPath
      ensures tracker.update == botsortUpdate && tracker.received == []
    {
      this.config := config;
      tracker := new BoTSORT(config.trackerConfigPath, config.gmcConfigPath, config.reidConfigPath,
                             config.reidOnnxPath, botsortUpdate);
    }

    /**
     * One frame: the engine receives BoTSORTInput of the detections together
     * with the frame, and the result has one entry per track, in order, with
     * its trackId and tlwh[0..3] truncated to integers.
     */
    method Update(detections: seq<Detection>, frame: Frame) returns (tracksOutput: seq<TrackedObject>)
      modifies tracker
      ensures tracker.received == old(tracker.received) + [(BoTSORTInput(config.classesToTrack, detections), frame)]
      ensures var tracks := tracker.Tracks();
        && |tracksOutput| == |tracks|
        && forall k :: 0 <= k < |tracks| ==>
             tracksOutput[k] == TrackedObject(tracks[k].trackId, Trunc(tracks[k].tlwh[0]), Trunc(tracks[k].tlwh[1]),
                                              Trunc(tracks[k].tlwh[2]), Trunc(tracks[k].tlwh[3]))
    {
      tracksOutput := [];
      var classes := config.classesToTrack;
      var detectionsToTrack: seq<DetectionBox> := [];
      for i := 0 to |detections|
        invariant detectionsToTrack == BoTSORTInput(classes, detections[..i])
        invariant tracker.received == old(tracker.received)
      {
        var detection := detections[i];
        assert detections[..i + 1] == detections[..i] + [detection];
        BoTSORTInputSnoc(classes, detections[..i], detection);
        if detection.classLabel in classes {
          var tlwh := [detection.bbox.x as real, detection.bbox.y as real,
                       detection.bbox.width as real, detection.bbox.height as real];
          var detBox := DetectionBox(tlwh, detection.score, detection.classLabel);
          detectionsToTrack := detectionsToTrack + [detBox];
        }
      }
      assert detections[..|detections|] == detections;

      var tracks := tracker.Update(detectionsToTrack, frame);

      for i := 0 to |tracks|
        invariant |tracksOutput| == i
        invariant forall k :: 0 <= k < i ==>
          tracksOutput[k] == TrackedObject(tracks[k].trackId, Trunc(tracks[k].tlwh[0]), Trunc(tracks[k].tlwh[1]),
                                           Trunc(tracks[k].tlwh[2]), Trunc(tracks[k].tlwh[3]))
      {
        var track := tracks[i];
        var trackedObj := TrackedObject(track.trackId, Trunc(track.tlwh[0]), Trunc(track.tlwh[1]),
                                        Trunc(track.tlwh[2]), Trunc(track.tlwh[3]));
        tracksOutput := tracksOutput + [trackedObj];
      }
    }
  }
}
