/** `salamon` of motif/extract/salamon.py: where the contour file of an audio
    file is written, and the decision to run the vamp tool, load the file and
    remove it. The tool and the file system are parameters: the state of the
    contour file before the call and what the tool writes when it runs. */
module Salamon {
  import opened Wrappers
  import opened PosixPath
  import opened ContourLoader

  /** The suffix sonic-annotator gives the csv file of the melodia contours transform,
      "vamp_melodia-contours_melodia-contours_contoursall" (written in three pieces so
      that the verifier can see it holds no separator). */
  const ContourString: string := "vamp_melodia-contours" + "_melodia-contours" + "_contoursall"

  /** What follows the stem in the contour file's name. */
  const FileSuffix: string := "_" + ContourString + ".csv"

  /** `name.split('.')[0]`: the text before the first '.', all of `name` when it has none. */
  function Stem(name: string): (s: string)
    ensures s <= name && '.' !in s
    ensures |s| < |name| ==> name[|s|] == '.'
  {
    if name == [] || name[0] == '.' then [] else [name[0]] + Stem(name[1..])
  }

  /** The file name of the contour file: `"{}_{}.csv".format(stem, ContourString)`. */
  function OutputFileName(audioPath: string): (name: string)
    ensures Sep !in name
  {
    var stem := Stem(BaseName(audioPath));
    StemOfNameHasNoSep(BaseName(audioPath));
    SuffixHasNoSep();
    stem + FileSuffix
  }

  lemma SuffixHasNoSep()
    ensures Sep !in FileSuffix
  {
  }

  lemma StemOfNameHasNoSep(name: string)
    requires Sep !in name
    ensures Sep !in Stem(name)
  {
    var stem := Stem(name);
    assert forall k :: 0 <= k < |stem| ==> stem[k] == name[k];
  }

  /** `os.path.join(os.path.dirname(audio_fpath), OutputFileName(audio_fpath))`. */
  function OutputPath(audioPath: string): string {
    Join(DirName(audioPath), OutputFileName(audioPath))
  }

  /** The contour file lies in the audio file's directory and is named after its stem. */
  lemma OutputPathLocation(audioPath: string)
    ensures DirName(OutputPath(audioPath)) == DirName(audioPath)
    ensures BaseName(OutputPath(audioPath)) == Stem(BaseName(audioPath)) + FileSuffix
  {
    JoinSplits(DirName(audioPath), OutputFileName(audioPath));
  }

  /** Two audio files share a contour file exactly when they are in the same
      directory and their names agree up to the first '.' ("a/x.wav", "a/x.mp3"). */
  lemma OutputPathsCollideIff(p: string, q: string)
    ensures OutputPath(p) == OutputPath(q) <==>
            DirName(p) == DirName(q) && Stem(BaseName(p)) == Stem(BaseName(q))
  {
    if OutputPath(p) == OutputPath(q) {
      OutputPathLocation(p);
      OutputPathLocation(q);
      var sp, sq := Stem(BaseName(p)), Stem(BaseName(q));
      assert sp + FileSuffix == sq + FileSuffix;
      assert sp == (sp + FileSuffix)[..|sp|];
    }
  }

  /** The contour file at the output path: absent, or present with its rows. */
  datatype FileState = Absent | Present(rows: seq<Row>)

  /** The IOError raised when no contour file exists after the tool step, or the
      ValueError of `load_contours`. */
  datatype SalamonError = OutputMissing(path: string) | Unconvertible(cause: LoadError)

  /** Line 45: the tool runs when recomputation is asked for or no contour file exists. */
  predicate RunsTool(recompute: bool, before: FileState) {
    recompute || before.Absent?
  }

  /** The contour file after the tool step: what the tool wrote, or, when it did not
      run or wrote nothing, the file that was there before. */
  function AfterToolStep(recompute: bool, before: FileState, written: FileState): (after: FileState)
    ensures !RunsTool(recompute, before) ==> after == before
    ensures RunsTool(recompute, before) && written.Present? ==> after == written
    ensures RunsTool(recompute, before) && written.Absent? ==> after == before
    ensures after.Absent? <==> before.Absent? && written.Absent?
  {
    if RunsTool(recompute, before) && written.Present? then written else before
  }

  /** `salamon(audio_fpath, recompute, clean)`: the contour arrays or the error, with the
      state of the contour file when the call returns. */
  function Run(audioPath: string, recompute: bool, clean: bool, before: FileState, written: FileState,
               parse: string -> Option<Float>): (r: (Result<Columns<Float>, SalamonError>, FileState))
    ensures AfterToolStep(recompute, before, written).Absent? ==> r.0 == Err(OutputMissing(OutputPath(audioPath)))
    ensures AfterToolStep(recompute, before, written).Present? ==>
              r.0 == match Load(AfterToolStep(recompute, before, written).rows, parse)
                     case Ok(c) => Ok(c)
                     case Err(e) => Err(Unconvertible(e))
    ensures r.1.Present? ==> r.1 == AfterToolStep(recompute, before, written)
    ensures r.0.Ok? ==> exists rows :: AfterToolStep(recompute, before, written) == Present(rows)
                                        && WellFormed(r.0.value, |rows|)
  {
    var after := AfterToolStep(recompute, before, written);
    match after
    case Absent => (Err(OutputMissing(OutputPath(audioPath))), Absent)
    case Present(rows) =>
      match Load(rows, parse)
      case Err(e) => (Err(Unconvertible(e)), after)
      case Ok(c) =>
        LoadWellFormed(rows, parse);
        (Ok(c), if clean then Absent else after)
  }

  /** With recompute off, an existing contour file is loaded and the tool is not consulted. */
  lemma ExistingFileReused(audioPath: string, clean: bool, rows: seq<Row>, written: FileState,
                           parse: string -> Option<Float>)
    ensures Run(audioPath, false, clean, Present(rows), written, parse).0 ==
            match Load(rows, parse)
            case Ok(c) => Ok(c)
            case Err(e) => Err(Unconvertible(e))
  {
  }

  /** With recompute on, a tool run that writes nothing leaves the earlier file to be loaded. */
  lemma StaleFileLoadedAfterSilentRun(audioPath: string, clean: bool, rows: seq<Row>,
                                      parse: string -> Option<Float>)
    ensures Run(audioPath, true, clean, Present(rows), Absent, parse) ==
            Run(audioPath, false, clean, Present(rows), Absent, parse)
  {
  }

  /** The contour file is gone afterwards exactly when it never appeared, or it was
      loaded without error and `clean` was set; a conversion error leaves it in place. */
  lemma FileRemovedIff(audioPath: string, recompute: bool, clean: bool, before: FileState, written: FileState,
                       parse: string -> Option<Float>)
    ensures var r := Run(audioPath, recompute, clean, before, written, parse);
            r.1.Absent? <==> (before.Absent? && written.Absent?) || (clean && r.0.Ok?)
  {
  }
}
