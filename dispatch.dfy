/**
 * Tracker selection in the demo program (run.cpp): createTracker maps the
 * --tracker option to one of the three current adapters by exact string
 * comparison, and main gives up with exit status 1 when either the detector
 * or the tracker could not be created.
 */
module Dispatch {
  import opened Types
  import opened Config
  import SortAdapter
  import ByteTrackAdapter
  import BoTSORTAdapter

  /** The tracking algorithms createTracker knows. */
  datatype Algorithm = BoTSORTAlgorithm | SortAlgorithm | ByteTrackAlgorithm

  /** The --tracker option's default value. */
  const DefaultTrackerName: string := "SORT"

  /**
   * The algorithm a --tracker value names: "BoTSORT", "SORT" and "ByteTrack",
   * compared exactly (case included); any other value names none.
   */
  function SelectTracker(name: string): (r: Option<Algorithm>)
    ensures r == Some(BoTSORTAlgorithm) <==> name == "BoTSORT"
    ensures r == Some(SortAlgorithm) <==> name == "SORT"
    ensures r == Some(ByteTrackAlgorithm) <==> name == "ByteTrack"
    ensures r == None <==> name != "BoTSORT" && name != "SORT" && name != "ByteTrack"
  {
    if name == "BoTSORT" then Some(BoTSORTAlgorithm)
    else if name == "SORT" then Some(SortAlgorithm)
    else if name == "ByteTrack" then Some(ByteTrackAlgorithm)
    else None
  }

  /**
   * The default option selects SORT; names differing only in case, and the
   * empty name, select nothing.
   */
  lemma SelectTrackerExamples()
    ensures SelectTracker(DefaultTrackerName) == Some(SortAlgorithm)
    ensures SelectTracker("sort") == None && SelectTracker("bytetrack") == None
    ensures SelectTracker("botsort") == None && SelectTracker("BYTETRACK") == None
    ensures SelectTracker("") == None
  {
  }

  /** The unseen engine code each adapter would run. */
  datatype Engines = Engines(
    sortUpdate: SortAdapter.SortUpdate,
    byteTrackUpdate: ByteTrackAdapter.ByteTrackUpdate,
    botsortUpdate: BoTSORTAdapter.BoTSORTUpdate)

  /** A created tracker: one of the three adapters behind the common interface. */
  datatype Tracker =
    | BoTSORTTracker(botsort: BoTSORTAdapter.BoTSORTWrapper)
    | SortTracker(sort: SortAdapter.SortWrapper)
    | ByteTrackTracker(byteTrack: ByteTrackAdapter.ByteTrackWrapper)
  {
    /** Which algorithm the adapter runs. */
    function Kind(): Algorithm
    {
      match this
      case BoTSORTTracker(_) => BoTSORTAlgorithm
      case SortTracker(_) => SortAlgorithm
      case ByteTrackTracker(_) => ByteTrackAlgorithm
    }

    /** The configuration the adapter was built from. */
    function Configuration(): TrackConfig
    {
      match this
      case BoTSORTTracker(w) => w.config
      case SortTracker(w) => w.config
      case ByteTrackTracker(w) => w.config
    }
  }

  /**
   * createTracker: a new adapter of the selected algorithm, built from the
   * whole configuration, whose engine has that configuration's settings for
   * its algorithm and has seen no frame yet; or none (nullptr) for a name
   * that selects no algorithm.
   */
  method CreateTracker(trackingAlgorithm: string, config: TrackConfig, engines: Engines)
    returns (tracker: Option<Tracker>)
    ensures tracker.None? <==> SelectTracker(trackingAlgorithm).None?
    ensures tracker.Some? ==> SelectTracker(trackingAlgorithm) == Some(tracker.value.Kind())
    ensures tracker.Some? ==> tracker.value.Configuration() == config
    ensures tracker.Some? && tracker.value.BoTSORTTracker? ==>
      && fresh(tracker.value.botsort) && fresh(tracker.value.botsort.tracker)
      && tracker.value.botsort.tracker.trackerConfigPath == config.trackerConfigPath
      && tracker.value.botsort.tracker.gmcConfigPath == config.gmcConfigPath
      && tracker.value.botsort.tracker.reidConfigPath == config.reidConfigPath
      && tracker.value.botsort.tracker.reidOnnxPath == config.reidOnnxPath
      && tracker.value.botsort.tracker.update == engines.botsortUpdate
      && tracker.value.botsort.tracker.received == []
    ensures tracker.Some? && tracker.value.SortTracker? ==>
      && fresh(tracker.value.sort) && fresh(tracker.value.sort.tracker)
      && tracker.value.sort.tracker.maxAge == config.maxAge
      && tracker.value.sort.tracker.minHits == config.minHits
      && tracker.value.sort.tracker.iouThreshold == config.iouThreshold
      && tracker.value.sort.tracker.update == engines.sortUpdate
      && tracker.value.sort.tracker.received == []
    ensures tracker.Some? && tracker.value.ByteTrackTracker? ==>
      && fresh(tracker.value.byteTrack) && fresh(tracker.value.byteTrack.tracker)
      && tracker.value.byteTrack.tracker.trackBuffer == config.trackBuffer
      && tracker.value.byteTrack.tracker.trackThresh == config.trackThresh
      && tracker.value.byteTrack.tracker.highThresh == config.highThresh
      && tracker.value.byteTrack.tracker.matchThresh == config.matchThresh
      && tracker.value.byteTrack.tracker.update == engines.byteTrackUpdate
      && tracker.value.byteTrack.tracker.received == []
  {
    if trackingAlgorithm == "BoTSORT" {
      var w := new BoTSORTAdapter.BoTSORTWrapper(config, engines.botsortUpdate);
      return Some(BoTSORTTracker(w));
    } else if trackingAlgorithm == "SORT" {
      var w := new SortAdapter.SortWrapper(config, engines.sortUpdate);
      return Some(SortTracker(w));
    } else if trackingAlgorithm == "ByteTrack" {
      var w := new ByteTrackAdapter.ByteTrackWrapper(config, engines.byteTrackUpdate);
      return Some(ByteTrackTracker(w));
    }
    return None;
  }

  /**
   * main after setting up: exit status 1 when the detector or the tracker is
   * missing, and otherwise no exit (processing goes on).
   */
  function StartupExit(detectorCreated: bool, tracker: Option<Algorithm>): (r: Option<int>)
    ensures r.Some? ==> r.value == 1
    ensures r.None? <==> detectorCreated && tracker.Some?
  {
    if !detectorCreated || tracker.None? then Some(1) else None
  }

  /**
   * With a detector, the program goes on exactly when the --tracker value is
   * one of the three names, and exits with status 1 otherwise.
   */
  lemma UnknownAlgorithmExits(name: string)
    ensures StartupExit(true, SelectTracker(name)) == Some(1)
        <==> name != "BoTSORT" && name != "SORT" && name != "ByteTrack"
    ensures StartupExit(true, SelectTracker(name)) == None
        <==> name == "BoTSORT" || name == "SORT" || name == "ByteTrack"
  {
  }

  /** Without a detector the program exits with status 1 whatever the tracker. */
  lemma MissingDetectorExits(tracker: Option<Algorithm>)
    ensures StartupExit(false, tracker) == Some(1)
  {
  }
}
