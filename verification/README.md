# Contour file loading of motif's Salamon (melodia) extractor

motif extracts pitch contours from audio with the melodia-contours vamp
plugin, run through sonic-annotator. The plugin writes a csv file next to the
audio file. `load_contours` turns that file into four parallel arrays: contour
number, time, frequency and salience. This project models that loader and the
part of `salamon()` that names the file and decides whether to run the tool,
load the file and remove it. All of it is in `motif/extract/salamon.py`.

Files and modules:

- `contour_loader.dfy` (module `ContourLoader`) models `load_contours`.
  - Rows are the already-split cells of the csv file.
  - The row loop (lines 84-96) is the method `LoadContours`. It extends four
    sequences and a contour counter, and is proved equal to the functions
    `IndexColumn` and `Column`.
  - Truncation to the shortest list (98-101) is `Truncate`.
  - Conversion to numeric arrays (103-106) is `ParseFloats` and `Converted`.
  - The NaN mask (108-114) is `KeepMask` and `DropNaN`.
  - The whole loader as one function is `Load`.
- `boolean_mask.dfy` (module `BooleanMask`) models numpy boolean indexing
  `a[mask]` as `Select`, and the positions it keeps as `TruePositions`.
- `posix_path.dfy` (module `PosixPath`) models `os.path.basename`, `dirname`
  and `join` as Python's posixpath defines them.
- `salamon.dfy` (module `Salamon`) covers the rest of `salamon()`.
  - `OutputPath` builds the contour file's path (lines 8, 39-44).
  - `Run` models the tool step, the existence check, the load and the clean-up
    (45-61). The file system and the tool are parameters.
- `wrappers.dfy` (module `Wrappers`) holds `Option` and `Result`.

Numbers are abstract. A cell converts, through the parameter `parse`, to a
`Float` that is finite, infinite or NaN. `parse` returns `None` where numpy
raises `ValueError`.

The loader does not check the shape of a row. It pairs a time with a frequency
and a salience by their position in the concatenated lists, not row by row.
`load_contours` returns four parallel arrays, one entry per contour sample
(salamon.py:72-81). Each entry is one row's triple when every row's cells
from 14 on come in whole triples (`AlignedRowsPairUp`). In general
the k-th time, the k-th frequency and the k-th salience of the three
concatenated lists are paired, wherever each came from (`ColumnPlacesRowCells`
places every cell). So once a row ends in an incomplete triple and a later row
contributes cells, the pairing drifts across rows. With one such row followed
by complete rows: a row whose last triple lacks only its salience keeps that
triple's time and frequency and takes the next row's salience (`MissingSalienceShiftsSaliences`);
a row whose last triple holds only a time pairs it with the next row's frequency and salience
(`ShortRowShiftsPairing`). With several short rows the drift adds up. If no
later row contributes, truncation just cuts the extra cells off. The model
follows the code.

## Model

| member | source | states |
|---|---|---|
| `ContourLoader.StrideSlice` | motif/extract/salamon.py:92-95 | `row[start::3]` has ceil((len(row) - start) / 3) cells, none when the row has at most `start` cells, and its cell j is cell start + 3j of the row |
| `ContourLoader.LoadContours` | motif/extract/salamon.py:64-116 | the loop leaves, in row order, every row's strided cells and `len(row[14::3])` copies of each row's number k. The method returns the loader's result: a conversion error, or four arrays of one length with no NaN and with non-decreasing contour numbers, each below the number of rows read |
| `ContourLoader.IndexMatchesTimes` | motif/extract/salamon.py:92-93 | after the loop the index list and the time list have the same length |
| `ContourLoader.IndexColumnSorted` | motif/extract/salamon.py:90-96 | contour numbers in the index list never decrease, and each is between 0 and the number of rows read (exclusive) |
| `ContourLoader.RowContribution` | motif/extract/salamon.py:90-96 | row k adds exactly `len(row[14::3])` copies of k. A row of at most 14 cells adds none, yet the next row still gets k + 1 |
| `ContourLoader.ColumnPlacesRowCells` | motif/extract/salamon.py:93-95 | cell start + 3j of row k is at position (cells of the earlier rows) + j of its list, so cells are appended in row order |
| `ContourLoader.IndexPlacesRow` | motif/extract/salamon.py:92-93 | the index list holds k at every position where row k's time cells are |
| `ContourLoader.AlignedStrides` | motif/extract/salamon.py:93-95 | a row of at most 14 cells, or of 14 + 3m cells, has as many time as frequency as salience cells |
| `ContourLoader.AlignedRowsSameLength` | motif/extract/salamon.py:92-101 | when every row is such a row, the four lists have one length and truncation removes nothing |
| `ContourLoader.AlignedRowsPairUp` | motif/extract/salamon.py:92-95 | when every row is such a row, position p of the lists holds cells 14+3j, 15+3j and 16+3j of the one row whose number is at p |
| `ContourLoader.ShortRowShiftsPairing` | motif/extract/salamon.py:92-106 | in a file of a row holding only a time followed by one complete row, contour 0's time ends up with contour 1's frequency and salience |
| `ContourLoader.MissingSalienceShiftsSaliences` | motif/extract/salamon.py:92-106 | in a file of a row with a time and a frequency but no salience followed by one complete row, contour 0 keeps its own time and frequency and takes contour 1's salience |
| `ContourLoader.Truncate` | motif/extract/salamon.py:98-106 | the four results have one length and are prefixes of the four lists, and that length is the length of one of them, i.e. the shortest |
| `ContourLoader.ParseFloats` | motif/extract/salamon.py:104-106 | conversion succeeds iff every cell converts, and then value i is cell i's conversion. Otherwise the error names the first cell that does not convert |
| `ContourLoader.ParseFloatsValues` | motif/extract/salamon.py:104-106 | conversely, cells that convert to given values yield exactly those values |
| `ContourLoader.Converted` | motif/extract/salamon.py:98-106 | the converted arrays have one length |
| `ContourLoader.ConvertedShape` | motif/extract/salamon.py:98-106 | the common length n is the shortest list's. It is below the time list's only when frequencies or saliences ran short. The contour numbers are the first n of the loop's, and every value converts from the cell at the same position |
| `ContourLoader.ConvertedFailsIff` | motif/extract/salamon.py:103-106 | conversion fails iff some cell within the truncated length does not convert; cells cut off are never converted |
| `ContourLoader.DropNaN` | motif/extract/salamon.py:108-114 | a position is kept iff its time, frequency and salience are all non-NaN (the contour number is not consulted). The kept entries appear in the original order at increasing positions in all four arrays, which keep one length and hold no NaN |
| `ContourLoader.LoadWellFormed` | motif/extract/salamon.py:90-116 | a successful load returns four arrays of one length with no NaN, and contour numbers that never decrease and name rows that were read |
| `ContourLoader.NaNTimeDropped` | motif/extract/salamon.py:108-116 | on a three-row file whose middle time is "nan", the middle position is dropped from all four arrays and contours 0 and 2 remain with their own rows' time, frequency and salience |
| `ContourLoader.IndexColumn` | motif/extract/salamon.py:90-92 | the contour numbers the loop leaves. `RowContribution`, `IndexColumnSorted` and `IndexPlacesRow` state its properties |
| `ContourLoader.Column` | motif/extract/salamon.py:93-95 | the cells the loop appends from one column start. `ColumnPlacesRowCells` and `AlignedRowsPairUp` state where each cell lands |
| `ContourLoader.Accumulated` | motif/extract/salamon.py:84-96 | the four lists after the loop. `LoadContours` is proved to build exactly these, and `AlignedRowsSameLength` gives their lengths |
| `ContourLoader.KeepMask` | motif/extract/salamon.py:108-110 | the non-NaN mask. `DropNaN` states that a position is selected iff its time, frequency and salience are all non-NaN |
| `ContourLoader.Load` | motif/extract/salamon.py:64-116 | the whole loader as a function. `LoadWellFormed` states the shape of its result, and `NaNTimeDropped` gives a worked example |
| `PosixPath.Join` | motif/extract/salamon.py:44 | `os.path.join` of two components. `JoinSplits` states that basename and dirname recover both parts |
| `Salamon.OutputPath` | motif/extract/salamon.py:39-44 | the contour file's path. `OutputPathLocation` and `OutputPathsCollideIff` state its directory and name |
| `Salamon.RunsTool` | motif/extract/salamon.py:45 | the tool runs iff recompute is set or no contour file exists. `AfterToolStep` states the resulting file |
| `BooleanMask.TruePositions` | motif/extract/salamon.py:111-114 | the positions a boolean mask selects: exactly those where it is true, in increasing order |
| `BooleanMask.Select` | motif/extract/salamon.py:111-114 | `a[mask]` has one entry per true position, entry j being `a` at the j-th true position |
| `BooleanMask.SelectKeepsOrder` | motif/extract/salamon.py:111 | boolean indexing of a non-decreasing array gives a non-decreasing array |
| `PosixPath.RFind` | motif/extract/salamon.py:39 | the last position of a character in a string (as basename uses it), -1 when absent |
| `PosixPath.BaseName` | motif/extract/salamon.py:39 | `os.path.basename`: a separator-free suffix of the path, preceded by a separator unless it is the whole path |
| `PosixPath.DirName` | motif/extract/salamon.py:43 | `os.path.dirname`: the part before the basename, unchanged when it is all separators. Otherwise it loses its trailing separators and nothing else |
| `PosixPath.JoinSplits` | motif/extract/salamon.py:43-44 | joining a dirname with a separator-free name and splitting the result again gives back the dirname and the name |
| `Salamon.Stem` | motif/extract/salamon.py:41 | `name.split('.')[0]`: the longest prefix of the name with no '.' |
| `Salamon.OutputFileName` | motif/extract/salamon.py:40-42 | the contour file's name is stem + "_" + the tool string + ".csv" and holds no separator |
| `Salamon.OutputPathLocation` | motif/extract/salamon.py:39-44 | the contour file lies in the audio file's directory, and its name is the audio file's stem, "_", `vamp_melodia-contours_melodia-contours_contoursall` and ".csv" |
| `Salamon.OutputPathsCollideIff` | motif/extract/salamon.py:39-44 | two audio paths give the same contour path iff they share the directory and the stem |
| `Salamon.AfterToolStep` | motif/extract/salamon.py:45-51 | without a run the file is unchanged. A run that writes a file replaces the earlier one, a run that writes nothing leaves the earlier file as it was, and the file is absent afterwards iff it was absent and the tool wrote none |
| `Salamon.Run` | motif/extract/salamon.py:45-61 | no file after the tool step raises the IOError naming the contour path. Otherwise the result is `load_contours` of that file, its ValueError passed on. A successful result is well formed for that file's rows. When a file remains at the end, it is the file after the tool step |
| `Salamon.ExistingFileReused` | motif/extract/salamon.py:45-56 | with recompute off, an existing file is loaded whatever the tool would write |
| `Salamon.StaleFileLoadedAfterSilentRun` | motif/extract/salamon.py:45-56 | with recompute on, a run that writes nothing loads the earlier file, just as recompute off would |
| `Salamon.FileRemovedIff` | motif/extract/salamon.py:53-61 | the file is absent at the end iff it never existed, or it loaded without error and clean was set; a conversion error leaves it in place |

## Left out

- Running sonic-annotator (`os.system`), `os.path.exists` and `os.remove` are not performed. They are parameters of `Salamon.Run`: the contour file before the call, and what the tool writes when it runs.
- Opening the file and `csv.reader`'s tokenisation are not modelled. Rows arrive already split into cells, and an unreadable file is not modelled.
- String-to-float conversion is the abstract parameter `parse`, and floating point is reduced to finite, infinite or NaN. `np.array(index, dtype=int)` of the contour numbers cannot fail and is the identity here.
- numpy arrays are sequences. Aliasing and dtype details are not modelled.
- The source's default arguments (`recompute=True, clean=True`, salamon.py:11) are not modelled. `Salamon.Run` takes both as plain arguments.
- `os.path` is modelled as POSIX `posixpath`. Windows path rules are not.
- `ContourLoader.ParseFloats`: the error carries only the offending cell, not numpy's message text.
- The contour classifiers, feature extraction and scoring code of the repository are not part of this model, nor is `tests/contour_classifiers/test_randomforest.py`, which exercises them. `motif/__init__.py` only re-exports modules.
