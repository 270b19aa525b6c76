/**
 * The ByteTrack adapter (trackers/ByteTrackWrapper.cpp): turn the detections
 * of the configured classes into ByteTrack Objects, run BYTETracker, and
 * report its STracks as TrackedObjects with integer boxes.
 */
module ByteTrackAdapter {
  import opened Types
  import opened Seqs
  import opened Config

  /** ByteTrack's detection record: a float box, a probability and a label. */
  datatype Object = Object(rect: RectF, prob: real, classLabel: int)

  /** A ByteTrack track: an identity and a (left, top, width, height) vector. */
  datatype STrack = STrack(trackId: int, tlwh: Tlwh)

  /**
   * The unseen body of BYTETracker::update: the tracks it returns, given its
   * constructor arguments (track_buffer, track_thresh, high_thresh,
   * match_thresh) and every object list it has been handed so far.
   */
  type ByteTrackUpdate = (int, real, real, real, seq<seq<Object>>) -> seq<STrack>

  /** The ByteTrack engine, seen from outside. */
  class BYTETracker {
    const trackBuffer: int
    const trackThresh: real
    const highThresh: real
    const matchThresh: real
    const update: ByteTrackUpdate
    var received: seq<seq<Object>>

    constructor (trackBuffer: int, trackThresh: real, highThresh: real, matchThresh: real,
                 update: ByteTrackUpdate)
      ensures this.trackBuffer == trackBuffer && this.trackThresh == trackThresh
      ensures this.highThresh == highThresh && this.matchThresh == matchThresh
      ensures this.update == update && received == []
    {
      this.trackBuffer, this.trackThresh := trackBuffer, trackThresh;
      this.highThresh, this.matchThresh := highThresh, matchThresh;
      this.update := update;
      received := [];
    }

    /** The tracks the engine reports after the frames it has received. */
    function Tracks(): seq<STrack>
      reads this
    {
      update(trackBuffer, trackThresh, highThresh, matchThresh, received)
    }

    method Update(objects: seq<Object>) returns (tracks: seq<STrack>)
      modifies this
      ensures received == old(received) + [objects]
      ensures tracks == Tracks()
    {
      received := received + [objects];
      tracks := update(trackBuffer, trackThresh, highThresh, matchThresh, received);
    }
  }

  /** One detection as a ByteTrack Object. */
  function ToObject(d: Detection): Object
  {
    Object(ToRectF(d.bbox), d.score, d.classLabel)
  }

  /** The objects the adapter hands to the engine for one frame. */
  function ByteTrackInput(classes: set<int>, detections: seq<Detection>): seq<Object>
  {
    Map(Filter(detections, LabelTracked(classes)), ToObject)
  }

  /**
   * Every object handed to the engine is a detection of a configured class
   * with its box, score and label copied, and every such detection is handed
   * over; there are never more objects than detections, and none when no
   * class is configured.
   */
  lemma ByteTrackInputFacts(classes: set<int>, detections: seq<Detection>)
    ensures |ByteTrackInput(classes, detections)| <= |detections|
    ensures forall o :: o in ByteTrackInput(classes, detections) <==>
      exists d :: d in detections && d.classLabel in classes
        && o.rect == ToRectF(d.bbox) && o.prob == d.score && o.classLabel == d.classLabel
    ensures classes == {} ==> ByteTrackInput(classes, detections) == []
  {
    var kept := Filter(detections, LabelTracked(classes));
    forall o ensures o in ByteTrackInput(classes, detections) <==>
      exists d :: d in detections && d.classLabel in classes
        && o.rect == ToRectF(d.bbox) && o.prob == d.score && o.classLabel == d.classLabel
    {
      MapMembership(kept, ToObject, o);
      forall d ensures d in kept <==> d in detections && d.classLabel in classes {
        FilterMembership(detections, LabelTracked(classes), d);
      }
    }
  }

  /** One more detection adds its object exactly when its label is configured. */
  lemma ByteTrackInputSnoc(classes: set<int>, detections: seq<Detection>, d: Detection)
    ensures ByteTrackInput(classes, detections + [d])
         == ByteTrackInput(classes, detections) + if d.classLabel in classes then [ToObject(d)] else []
  {
    FilterSnoc(detections, d, LabelTracked(classes));
    if d.classLabel in classes {
      MapSnoc(Filter(detections, LabelTracked(classes)), d, ToObject);
    }
  }

  /** The objects keep the order of the detections they come from. */
  lemma ByteTrackInputConcat(classes: set<int>, a: seq<Detection>, b: seq<Detection>)
    ensures ByteTrackInput(classes, a + b) == ByteTrackInput(classes, a) + ByteTrackInput(classes, b)
  {
    FilterConcat(a, b, LabelTracked(classes));
    MapConcat(Filter(a, LabelTracked(classes)), Filter(b, LabelTracked(classes)), ToObject);
  }

  class ByteTrackWrapper {
    const config: TrackConfig
    const tracker: BYTETracker

    /** BYTETracker gets track_buffer, track_thresh, high_thresh and match_thresh, in that order. */
    constructor (config: TrackConfig, byteTrackUpdate: ByteTrackUpdate)
      ensures this.config == config && fresh(tracker)
      ensures tracker.trackBuffer == config.trackBuffer && tracker.trackThresh == config.trackThresh
      ensures tracker.highThresh == config.highThresh && tracker.matchThresh == config.matchThresh
      ensures tracker.update == byteTrackUpdate && tracker.received == []
    {
      this.config := config;
      tracker := new BYTETracker(config.trackBuffer, config.trackThresh, config.highThresh,
                                 config.matchThresh, byteTrackUpdate);
    }

    /**
     * One frame: the engine receives ByteTrackInput of the detections, and
     * the result has one entry per STrack, in order, with its identity and
     * tlwh[0..3] truncated to integers.
     */
    method Update(detections: seq<Detection>, frame: Frame) returns (tracksOutput: seq<TrackedObject>)
      modifies tracker
      ensures tracker.received == old(tracker.received) + [ByteTrackInput(config.classesToTrack, detections)]
      ensures var tracks := tracker.Tracks();
        && |tracksOutput| == |tracks|
        && forall k :: 0 <= k < |tracks| ==>
             tracksOutput[k] == TrackedObject(tracks[k].trackId, Trunc(tracks[k].tlwh[0]), Trunc(tracks[k].tlwh[1]),
                                              Trunc(tracks[k].tlwh[2]), Trunc(tracks[k].tlwh[3]))
    {
      tracksOutput := [];
      var classes := config.classesToTrack;
      var objects: seq<Object> := [];
      for i := 0 to |detections|
        invariant objects == ByteTrackInput(classes, detections[..i])
        invariant tracker.received == old(tracker.received)
      {
        var detection := detections[i];
        assert detections[..i + 1] == detections[..i] + [detection];
        ByteTrackInputSnoc(classes, detections[..i], detection);
        if detection.classLabel in classes {
          var obj := Object(RectF(detection.bbox.x as real, detection.bbox.y as real,
                                  detection.bbox.width as real, detection.bbox.height as real),
                            detection.score, detection.classLabel);
          objects := objects + [obj];
        }
      }
      assert detections[..|detections|] == detections;

      var tracks := tracker.Update(objects);

      for i := 0 to |tracks|
        invariant |tracksOutput| == i
        invariant forall k :: 0 <= k < i ==>
          tracksOutput[k] == TrackedObject(tracks[k].trackId, Trunc(tracks[k].tlwh[0]), Trunc(tracks[k].tlwh[1]),
                                           Trunc(tracks[k].tlwh[2]), Trunc(tracks[k].tlwh[3]))
      {
        var track := tracks[i];
        var trackedObj := TrackedObject(track.trackId, Trunc(track.tlwh[0]), Trunc(track.tlwh[1]),
                                        Trunc(track.tlwh[2]), Trunc(track.tlwh[3]));
        tracksOutput := tracksOutput + [trackedObj];
      }
    }
  }
}
