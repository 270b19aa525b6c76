/**
 * The older header-only SORT adapter (include/SortWrapper.hpp).  It keys the
 * class filter on class_index, builds corner-format TrackingBoxes, and runs a
 * default-constructed SORT engine.
 */
module LegacySortAdapter {
  import opened Types
  import opened Seqs

  /** SORT's box record: an integer tag and a float box. */
  datatype TrackingBox = TrackingBox(id: int, box: RectF)

  /**
   * The unseen body of Sort::update in trackers/SORT/Sort.hpp: the boxes it
   * returns, given its settings (max_age, min_hits, iou_threshold) and every
   * box list it has been handed so far.
   */
  type SortUpdate = (int, int, real, seq<seq<TrackingBox>>) -> seq<TrackingBox>

  /** The SORT engine of trackers/SORT/Sort.hpp, seen from outside. */
  class Sort {
    const maxAge: int
    const minHits: int
    const iouThreshold: real
    const update: SortUpdate
    var received: seq<seq<TrackingBox>>

    /** Sort(): max_age 5, min_hits 3, iou_threshold 0.3. */
    constructor Default(update: SortUpdate)
      ensures maxAge == 5 && minHits == 3 && iouThreshold == 0.3
      ensures this.update == update && received == []
    {
      maxAge, minHits, iouThreshold := 5, 3, 0.3;
      this.update := update;
      received := [];
    }

    /** The boxes the engine reports after the frames it has received. */
    function Tracks(): seq<TrackingBox>
      reads this
    {
      update(maxAge, minHits, iouThreshold, received)
    }

    method Update(detectFrameData: seq<TrackingBox>) returns (tracks: seq<TrackingBox>)
      modifies this
      ensures received == old(received) + [detectFrameData]
      ensures tracks == Tracks()
    {
      received := received + [detectFrameData];
      tracks := update(maxAge, minHits, iouThreshold, received);
    }
  }

  /**
   * One detection as a TrackingBox: the box spanned by the corners
   * (x, y) and (x + width, y + height), tagged with the class index.
   */
  function ToTrackingBox(d: LegacyDetection): TrackingBox
  {
    TrackingBox(d.classIndex,
      RectFromCorners(d.x as real, d.y as real, (d.x + d.width) as real, (d.y + d.height) as real))
  }

  /** What convertBbox produces from one frame's detections. */
  function ConvertedBoxes(classes: set<int>, detections: seq<LegacyDetection>): seq<TrackingBox>
  {
    Map(Filter(detections, ClassIndexTracked(classes)), ToTrackingBox)
  }

  /**
   * convertBbox turns exactly the detections of a configured class into
   * boxes; never more boxes than detections; each box's tag is the class
   * index (so it is in the class set), not a track identity; and for a
   * detection whose size is not negative the box is its (x, y, width, height).
   */
  lemma ConvertedBoxesFacts(classes: set<int>, detections: seq<LegacyDetection>)
    ensures |ConvertedBoxes(classes, detections)| <= |detections|
    ensures forall tb :: tb in ConvertedBoxes(classes, detections) <==>
      exists d :: d in detections && d.classIndex in classes && tb == ToTrackingBox(d)
    ensures forall tb :: tb in ConvertedBoxes(classes, detections) ==> tb.id in classes
    ensures forall d: LegacyDetection :: 0 <= d.width && 0 <= d.height ==>
      ToTrackingBox(d) == TrackingBox(d.classIndex,
                                      RectF(d.x as real, d.y as real, d.width as real, d.height as real))
  {
    var kept := Filter(detections, ClassIndexTracked(classes));
    forall tb ensures tb in ConvertedBoxes(classes, detections) <==>
      exists d :: d in detections && d.classIndex in classes && tb == ToTrackingBox(d)
    {
      MapMembership(kept, ToTrackingBox, tb);
      forall d ensures d in kept <==> d in detections && d.classIndex in classes {
        FilterMembership(detections, ClassIndexTracked(classes), d);
      }
    }
    forall d: LegacyDetection | 0 <= d.width && 0 <= d.height
      ensures ToTrackingBox(d) == TrackingBox(d.classIndex,
                                              RectF(d.x as real, d.y as real, d.width as real, d.height as real))
    {
      CornersRoundTrip(d.x as real, d.y as real, d.width as real, d.height as real);
    }
  }

  /** One more detection adds its box exactly when its class index is configured. */
  lemma ConvertedBoxesSnoc(classes: set<int>, detections: seq<LegacyDetection>, d: LegacyDetection)
    ensures ConvertedBoxes(classes, detections + [d])
         == ConvertedBoxes(classes, detections) + if d.classIndex in classes then [ToTrackingBox(d)] else []
  {
    FilterSnoc(detections, d, ClassIndexTracked(classes));
    if d.classIndex in classes {
      MapSnoc(Filter(detections, ClassIndexTracked(classes)), d, ToTrackingBox);
    }
  }

  /** The boxes keep the order of the detections they come from. */
  lemma ConvertedBoxesConcat(classes: set<int>, a: seq<LegacyDetection>, b: seq<LegacyDetection>)
    ensures ConvertedBoxes(classes, a + b) == ConvertedBoxes(classes, a) + ConvertedBoxes(classes, b)
  {
    FilterConcat(a, b, ClassIndexTracked(classes));
    MapConcat(Filter(a, ClassIndexTracked(classes)), Filter(b, ClassIndexTracked(classes)), ToTrackingBox);
  }

  class SortWrapper {
    const tracker: Sort
    const classesToTrack: set<int>

    /** Stores the class set as given; the engine keeps its own defaults. */
    constructor (classesToTrack: set<int>, sortUpdate: SortUpdate)
      ensures this.classesToTrack == classesToTrack && fresh(tracker)
      ensures tracker.maxAge == 5 && tracker.minHits == 3 && tracker.iouThreshold == 0.3
      ensures tracker.update == sortUpdate && tracker.received == []
    {
      tracker := new Sort.Default(sortUpdate);
      this.classesToTrack := classesToTrack;
    }

    method ConvertBbox(detectionResults: seq<LegacyDetection>) returns (detectionFrameData: seq<TrackingBox>)
      ensures detectionFrameData == ConvertedBoxes(classesToTrack, detectionResults)
    {
      detectionFrameData := [];
      for i := 0 to |detectionResults|
        invariant detectionFrameData == ConvertedBoxes(classesToTrack, detectionResults[..i])
      {
        var detectionResult := detectionResults[i];
        assert detectionResults[..i + 1] == detectionResults[..i] + [detectionResult];
        ConvertedBoxesSnoc(classesToTrack, detectionResults[..i], detectionResult);
        if detectionResult.classIndex !in classesToTrack {
          continue;
        }
        var xMin: real := detectionResult.x as real;
        var yMin: real := detectionResult.y as real;
        var xMax: real := (detectionResult.x + detectionResult.width) as real;
        var yMax: real := (detectionResult.y + detectionResult.height) as real;
        var tb := TrackingBox(detectionResult.classIndex, RectFromCorners(xMin, yMin, xMax, yMax));
        assert tb == ToTrackingBox(detectionResult);
        detectionFrameData := detectionFrameData + [tb];
      }
      assert detectionResults[..|detectionResults|] == detectionResults;
    }

    /**
     * One frame: the engine receives the converted boxes, and the result has
     * one entry per engine box, in order, with its id and its box fields
     * converted to integers.
     */
    method Update(detections: seq<LegacyDetection>) returns (results: seq<TrackedObject>)
      modifies tracker
      ensures tracker.received == old(tracker.received) + [ConvertedBoxes(classesToTrack, detections)]
      ensures var tracks := tracker.Tracks();
        && |results| == |tracks|
        && forall k :: 0 <= k < |tracks| ==>
             results[k] == TrackedObject(tracks[k].id, Trunc(tracks[k].box.x), Trunc(tracks[k].box.y),
                                         Trunc(tracks[k].box.width), Trunc(tracks[k].box.height))
    {
      var detectionFrameData := ConvertBbox(detections);
      var sortTrackResults := tracker.Update(detectionFrameData);
      results := [];
      for i := 0 to |sortTrackResults|
        invariant |results| == i
        invariant forall k :: 0 <= k < i ==>
          results[k] == TrackedObject(sortTrackResults[k].id, Trunc(sortTrackResults[k].box.x),
                                      Trunc(sortTrackResults[k].box.y), Trunc(sortTrackResults[k].box.width),
                                      Trunc(sortTrackResults[k].box.height))
      {
        var res := sortTrackResults[i];
        var obj := TrackedObject(res.id, Trunc(res.box.x), Trunc(res.box.y), Trunc(res.box.width),
                                 Trunc(res.box.height));
        results := results + [obj];
      }
    }
  }
}
