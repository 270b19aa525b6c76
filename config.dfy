/**
 * TrackConfig: the settings every adapter is built from.  The SORT and
 * ByteTrack numerics are default member initialisers that the constructor
 * never overrides; the class set and the four BoTSORT paths come from the
 * constructor's arguments, each defaulting to empty.
 */
module Config {

  datatype TrackConfig = TrackConfig(
    classesToTrack: set<int>,
    // SORT parameters
    maxAge: int,
    minHits: int,
    iouThreshold: real,
    // ByteTrack parameters
    trackBuffer: int,
    trackThresh: real,
    highThresh: real,
    matchThresh: real,
    // BoTSORT parameters
    trackerConfigPath: string,
    gmcConfigPath: string,
    reidConfigPath: string,
    reidOnnxPath: string)

  /** The member initialisers of the SORT and ByteTrack settings (0.3f etc. taken as exact decimals). */
  predicate HasDefaultNumerics(c: TrackConfig)
  {
    && c.maxAge == 1 && c.minHits == 3 && c.iouThreshold == 0.3
    && c.trackBuffer == 30 && c.trackThresh == 0.5 && c.highThresh == 0.6 && c.matchThresh == 0.8
  }

  /** The constructor TrackConfig(classes, trackerPath, gmcPath, reidPath, onnxPath). */
  function MakeTrackConfig(classes: set<int> := {}, trackerPath: string := "", gmcPath: string := "",
                           reidPath: string := "", onnxPath: string := ""): (c: TrackConfig)
    ensures c.classesToTrack == classes
    ensures c.trackerConfigPath == trackerPath && c.gmcConfigPath == gmcPath
    ensures c.reidConfigPath == reidPath && c.reidOnnxPath == onnxPath
    ensures HasDefaultNumerics(c)
  {
    TrackConfig(classes, 1, 3, 0.3, 30, 0.5, 0.6, 0.8, trackerPath, gmcPath, reidPath, onnxPath)
  }

  /** A default-constructed configuration tracks no class and names no file. */
  lemma DefaultConfig()
    ensures var c := MakeTrackConfig();
      c.classesToTrack == {} && c.trackerConfigPath == "" && c.gmcConfigPath == ""
      && c.reidConfigPath == "" && c.reidOnnxPath == ""
  {
  }

  /**
   * The configurations the constructor can produce are exactly those with the
   * default numerics: it rebuilds any such configuration from its own class
   * set and paths, and no other.
   */
  lemma ConstructedConfigs(c: TrackConfig)
    ensures HasDefaultNumerics(c) <==>
      c == MakeTrackConfig(c.classesToTrack, c.trackerConfigPath, c.gmcConfigPath,
                           c.reidConfigPath, c.reidOnnxPath)
  {
  }
}
