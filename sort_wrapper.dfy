/**
 * The SORT adapter (trackers/SortWrapper.cpp): keep the detections of the
 * configured classes, hand their boxes to the SORT engine, and report the
 * engine's tracks as TrackedObjects with integer boxes.
 */
module SortAdapter {
  import opened Types
  import opened Seqs
  import opened Config

  /** A track as the SORT engine returns it: an identity and a float box. */
  datatype Track = Track(id: int, bbox: RectF)

  /**
   * The unseen body of Sort::update: the tracks it returns, given its
   * constructor arguments (max_age, min_hits, iou_threshold) and every box
   * list it has been handed so far, the current frame's last.
   */
  type SortUpdate = (int, int, real, seq<seq<Rect>>) -> seq<Track>

  /**
   * The SORT engine, seen from outside: its settings and what it has received.
   * Its interface is the one its call sites in trackers/SortWrapper.cpp use:
   * three settings, integer boxes in, tracks with a float box out.
   */
  class Sort {
    const maxAge: int
    const minHits: int
    const iouThreshold: real
    const update: SortUpdate
    var received: seq<seq<Rect>>

    constructor (maxAge: int, minHits: int, iouThreshold: real, update: SortUpdate)
      ensures this.maxAge == maxAge && this.minHits == minHits && this.iouThreshold == iouThreshold
      ensures this.update == update && received == []
    {
      this.maxAge, this.minHits, this.iouThreshold := maxAge, minHits, iouThreshold;
      this.update := update;
      received := [];
    }

    /** The tracks the engine reports after the frames it has received. */
    function Tracks(): seq<Track>
      reads this
    {
      update(maxAge, minHits, iouThreshold, received)
    }

    method Update(detections: seq<Rect>) returns (tracks: seq<Track>)
      modifies this
      ensures received == old(received) + [detections]
      ensures tracks == Tracks()
    {
      received := received + [detections];
      tracks := update(maxAge, minHits, iouThreshold, received);
    }
  }

  function BoxOf(d: Detection): Rect { d.bbox }

  /** The boxes the adapter hands to the engine for one frame. */
  function SortInput(classes: set<int>, detections: seq<Detection>): seq<Rect>
  {
    Map(Filter(detections, LabelTracked(classes)), BoxOf)
  }

  /**
   * Only boxes of detections of a configured class reach the engine, each
   * unchanged; there are never more of them than detections, and none at all
   * when no class is configured.  A single detection passes exactly when its
   * label is configured.
   */
  lemma SortInputFacts(classes: set<int>, detections: seq<Detection>)
    ensures |SortInput(classes, detections)| <= |detections|
    ensures forall b :: b in SortInput(classes, detections) <==>
      exists d :: d in detections && d.classLabel in classes && d.bbox == b
    ensures classes == {} ==> SortInput(classes, detections) == []
    ensures forall d :: SortInput(classes, [d]) == if d.classLabel in classes then [d.bbox] else []
  {
    var kept := Filter(detections, LabelTracked(classes));
    forall b ensures b in SortInput(classes, detections) <==>
      exists d :: d in detections && d.classLabel in classes && d.bbox == b
    {
      MapMembership(kept, BoxOf, b);
      forall d ensures d in kept <==> d in detections && d.classLabel in classes {
        FilterMembership(detections, LabelTracked(classes), d);
      }
    }
    forall d ensures SortInput(classes, [d]) == if d.classLabel in classes then [d.bbox] else [] {
      FilterSnoc([], d, LabelTracked(classes));
      assert [] + [d] == [d];
    }
  }

  /** One more detection adds its box exactly when its label is configured. */
  lemma SortInputSnoc(classes: set<int>, detections: seq<Detection>, d: Detection)
    ensures SortInput(classes, detections + [d])
         == SortInput(classes, detections) + if d.classLabel in classes then [d.bbox] else []
  {
    FilterSnoc(detections, d, LabelTracked(classes));
    if d.classLabel in classes {
      MapSnoc(Filter(detections, LabelTracked(classes)), d, BoxOf);
    }
  }

  /** The retained boxes keep the order of the detections they come from. */
  lemma SortInputConcat(classes: set<int>, a: seq<Detection>, b: seq<Detection>)
    ensures SortInput(classes, a + b) == SortInput(classes, a) + SortInput(classes, b)
  {
    FilterConcat(a, b, LabelTracked(classes));
    MapConcat(Filter(a, LabelTracked(classes)), Filter(b, LabelTracked(classes)), BoxOf);
  }

  class SortWrapper {
    const config: TrackConfig
    const tracker: Sort

    /** The engine is built from the configuration's SORT settings, unchanged. */
    constructor (config: TrackConfig, sortUpdate: SortUpdate)
      ensures this.config == config && fresh(tracker)
      ensures tracker.maxAge == config.maxAge && tracker.minHits == config.minHits
      ensures tracker.iouThreshold == config.iouThreshold
      ensures tracker.update == sortUpdate && tracker.received == []
    {
      this.config := config;
      tracker := new Sort(config.maxAge, config.minHits, config.iouThreshold, sortUpdate);
    }

    /**
     * One frame: the engine receives SortInput of the detections, and the
     * result has one entry per engine track, in order, with the track's
     * identity and its box truncated to integers.
     */
    method Update(detections: seq<Detection>, frame: Frame) returns (tracksOutput: seq<TrackedObject>)
      modifies tracker
      ensures tracker.received == old(tracker.received) + [SortInput(config.classesToTrack, detections)]
      ensures var tracks := tracker.Tracks();
        && |tracksOutput| == |tracks|
        && forall k :: 0 <= k < |tracks| ==>
             tracksOutput[k] == TrackedObject(tracks[k].id, Trunc(tracks[k].bbox.x), Trunc(tracks[k].bbox.y),
                                              Trunc(tracks[k].bbox.width), Trunc(tracks[k].bbox.height))
    {
      tracksOutput := [];
      var classes := config.classesToTrack;
      var detectionsToTrack: seq<Rect> := [];
      for i := 0 to |detections|
        invariant detectionsToTrack == SortInput(classes, detections[..i])
        invariant tracker.received == old(tracker.received)
      {
        assert detections[..i + 1] == detections[..i] + [detections[i]];
        SortInputSnoc(classes, detections[..i], detections[i]);
        if detections[i].classLabel in classes {
          detectionsToTrack := detectionsToTrack + [detections[i].bbox];
        }
      }
      assert detections[..|detections|] == detections;

      var tracks := tracker.Update(detectionsToTrack);

      for i := 0 to |tracks|
        invariant |tracksOutput| == i
        invariant forall k :: 0 <= k < i ==>
          tracksOutput[k] == TrackedObject(tracks[k].id, Trunc(tracks[k].bbox.x), Trunc(tracks[k].bbox.y),
                                           Trunc(tracks[k].bbox.width), Trunc(tracks[k].bbox.height))
      {
        var track := tracks[i];
        var trackedObj := TrackedObject(track.id, Trunc(track.bbox.x), Trunc(track.bbox.y),
                                        Trunc(track.bbox.width), Trunc(track.bbox.height));
        tracksOutput := tracksOutput + [trackedObj];
      }
    }
  }
}
