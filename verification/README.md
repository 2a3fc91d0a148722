# scan_my_home, modelled in Dafny

`scan_my_home.py` lists the entries of one directory (the user's home by
default), asks `du -sh` for the disk usage of each, and prints them sorted by
size with a grand total. This project models the logic of that script that
does not depend on the operating system:

- `str2size`, which reads the size column of `du -h` ("0", "4.0K", "12M") as a
  number, scaling K, M, G and T by powers of 1000 (module `SizeParse`);
- the `file_info` record, its constructor, its three width setters and the
  column layout of `__str__` (module `FileInfos`);
- the steps of `main` between the subprocess calls: normalising the target
  directory, cleaning the `ls -a` listing, the per-entry loop (readability,
  size text, records, running width maxima), handing the widths to the records,
  the sort by size and the total (modules `Listing` and `Scan`, with the
  generic stable sort and sum in `Sorting`);
- the Python string operations involved: `split`, `split(c)[0]` and
  `'{:<{n}}'.format` padding (module `Text`).

Python exceptions that end a run are values of `Results.ScanError`:
an empty directory argument (IndexError on `thehome[-1]`), a listing without
`.`, `..` or the empty last line (ValueError from `list.remove`), a size
prefix `float` rejects (ValueError), and a `None` size reaching the sort or
the sum (TypeError). The environment is a parameter: `Scan.Scan` receives the
`ls -a` output and a function giving, for each full path, `os.path.isdir` and
what `du -sh` wrote to standard error and standard output.

The script reports the immediate entries of one directory only: it does not
descend into subdirectories, treats symbolic links like any other entry, and
prints each size text as `du` gave it, followed by its parsed value. A purely
numeric size text is taken as it stands. `setWidthFtype` assigns a misspelled
attribute (`width_ftyle`), so the type column keeps its initial width of 3;
`FileInfo.widthFtyle` records that attribute, and `Scan.ReportWidths` states
the consequence.

The sort is Python's stable `list.sort(..., reverse=True)`. The model uses an
insertion sort and proves (`Sorting.StableSortIsUnique`) that any stable
non-increasing sort gives the same list, so the choice of algorithm does not
matter.

## Model

| member | source | states |
|---|---|---|
| `Text.Split` | scan_my_home.py:79 | `s.split(c)` yields at least one piece, no piece holds `c`, and joining the pieces with `c` gives back `s` |
| `Text.SplitJoin` | scan_my_home.py:79 | splitting a join of separator-free pieces gives the pieces back |
| `Text.FirstField` | scan_my_home.py:107 | `s.split(c)[0]` is the prefix of `s` before the first `c`, all of `s` when there is none |
| `Text.PadRight` | scan_my_home.py:19-21 | `'{:<{n}}'` keeps the text, never truncates, and fills with blanks up to width `n` |
| `SizeParse.Str2Size` | scan_my_home.py:35-49 | a purely numeric text is its own value; `None` is returned exactly when the text is not numeric and holds none of K, M, G, T |
| `SizeParse.SuffixPriority` | scan_my_home.py:38-49 | the first of K, M, G, T present in the text decides, whatever letters follow; the text before that letter's first occurrence is parsed and scaled by 1000 to the unit's rank, and a prefix `float` rejects raises |
| `SizeParse.ParseDecimal` | scan_my_home.py:36-49 | `float` of digits is their value; `<w>.<f>` with digit strings `w`, `f` and at least one digit is the decimal `w + f / 10^|f|`; every other text is rejected; an accepted value is non-negative |
| `SizeParse.ParseDecimalOfParts` | scan_my_home.py:38-49 | for all digit strings `w` and `f` with at least one digit between them, `float(w + "." + f)` is the decimal they spell |
| `SizeParse.ScaleByFirstUnit` | scan_my_home.py:38-49 | the `elif` chain gives `None` exactly when no letter of the units occurs, and otherwise the first unit whose letter occurs scales the text before that letter |
| `SizeParse.NumericRoundTrip` | scan_my_home.py:36-37 | reading back the decimal rendering of any whole number gives that number |
| `SizeParse.SuffixedRoundTrip` | scan_my_home.py:38-49 | `<whole>.<frac><unit>` reads back as its decimal value times the unit's factor |
| `SizeParse.WholeSuffixedRoundTrip` | scan_my_home.py:38-49 | `<whole><unit>` reads back as the whole number times the unit's factor |
| `SizeParse.FractionWithoutUnitIsNone` | scan_my_home.py:35-49 | "1.5" is neither numeric nor suffixed, so the result is `None` |
| `SizeParse.KiloBeforeMega` | scan_my_home.py:38-40 | in "2KM" the K is checked first and "2" is scaled to 2000 |
| `SizeParse.KiloWinsEvenWhenLater` | scan_my_home.py:38-40 | in "2MK" the K still wins and `float("2M")` raises |
| `FileInfos.NewFileInfo` | scan_my_home.py:9-16 | a new record holds its four arguments and the widths 45, 3 and 7, and has no misspelled attribute yet |
| `FileInfos.FileInfo.SetWidthName` | scan_my_home.py:25-26 | only the name width changes, to the argument |
| `FileInfos.FileInfo.SetWidthFtype` | scan_my_home.py:28-29 | the type width used for printing is left as it was; only the misspelled attribute takes the argument |
| `FileInfos.FileInfo.SetWidthSizestr` | scan_my_home.py:31-32 | only the size-text width changes, to the argument |
| `FileInfos.FileInfo.ToString` | scan_my_home.py:18-23 | the printed line is as long as its three padded columns, the labels and the raw size text; `NameColumn`, `TypeColumn` and `SizeColumn` state its content position by position |
| `FileInfos.ColumnOffsets` | scan_my_home.py:18-23 | each column is as wide as its width or its field, whichever is larger |
| `FileInfos.NameColumn` | scan_my_home.py:19 | the line opens with `Name: ` and the name, blank-filled up to the type column |
| `FileInfos.TypeColumn` | scan_my_home.py:20 | the type column holds `\tType: ` and the type tag, blank-filled up to the size column |
| `FileInfos.SizeColumn` | scan_my_home.py:21-22 | the size column holds `\tSize: ` and the size text, blank-filled up to the raw size, and the line ends with ` (<size>B)` |
| `Listing.NormaliseDir` | scan_my_home.py:62-65 | an empty argument raises; otherwise the result extends the argument by at most one character, ends in `/`, and is the argument itself when that already ends in `/` |
| `Listing.NormaliseDirIdempotent` | scan_my_home.py:62-65 | normalising a normalised directory changes nothing |
| `Listing.RemoveFirst` | scan_my_home.py:81-83 | `list.remove` raises exactly when the item is absent; otherwise it drops the first occurrence only, keeping the order of the rest |
| `Listing.CleanListing` | scan_my_home.py:79-83 | the cleanup succeeds exactly when `.`, `..` and the empty line are all listed, removes one of each, and raises for the first of them (in that order) that is missing |
| `Listing.CleanListingKeepsOrdinary` | scan_my_home.py:79-83 | every other name survives, in the order `ls` printed it |
| `Sorting.Insert` | scan_my_home.py:126 | inserting into a non-increasing list keeps it non-increasing and adds exactly one element |
| `Sorting.SortDescending` | scan_my_home.py:126 | the sorted list is non-increasing and a permutation of the input |
| `Sorting.SortDescendingIsStable` | scan_my_home.py:126 | elements with equal keys keep their relative order |
| `Sorting.StableSortIsUnique` | scan_my_home.py:126 | every stable non-increasing sort of a list gives the same result |
| `Sorting.SumOfSorted` | scan_my_home.py:126-130 | sorting does not change the sum of the keys |
| `Scan.FType` | scan_my_home.py:95-97 | the type tag is `d` exactly for a directory and `f` for anything else |
| `Scan.SizeStr` | scan_my_home.py:107 | the size text is the prefix of `du`'s output up to its first newline or tab, and holds neither |
| `Scan.MakeRecord` | scan_my_home.py:110 | the appended record holds the name, type tag and size text of its entry, has no size exactly when `str2size` gave `None` and otherwise that size, and has the initial widths |
| `Scan.Kept` | scan_my_home.py:99-110 | the readable entries are exactly those of the listing whose probe wrote nothing to standard error |
| `Scan.Records` | scan_my_home.py:99-110 | the loop succeeds exactly when no readable entry's size text makes `float` raise; then it yields one record per readable entry in listing order, and otherwise raises for the first such entry |
| `Scan.Track` | scan_my_home.py:112-119 | each running maximum becomes the larger of itself and the entry's field length |
| `Scan.MaxWidths` | scan_my_home.py:86-119 | each width is at least the length of the field of every listed entry, unreadable ones included, and is one of those lengths (0 for an empty listing); the type width is 1, or 0 for an empty listing |
| `Scan.ApplyWidths` | scan_my_home.py:121-124 | every record gets the name and size-text maxima, keeps its type width, stores the type maximum in the misspelled attribute, and keeps all other fields |
| `Scan.SortBySize` | scan_my_home.py:126 | the sort raises exactly when two or more records are sorted and one has no size; otherwise it is a stable non-increasing permutation |
| `Scan.Total` | scan_my_home.py:128-130 | the sum raises exactly when a record has no size |
| `Scan.Warnings` | scan_my_home.py:103-105 | the warnings name the full path of every unreadable entry and of nothing else, so each listed entry is either kept or warned about |
| `Scan.WarningsAppend` | scan_my_home.py:89-105 | the warnings of a listing split in two are those of the first part followed by those of the second, so they come in listing order |
| `Scan.BuildReport` | scan_my_home.py:85-130 | a rejected size text ends the loop with its error; a completed run reports the widths over all entries, the warnings, records in non-increasing size order that all have a size, and their sum as the total |
| `Scan.Scan` | scan_my_home.py:62-130 | an empty directory argument and a failed cleanup end the run with their errors; a completed run accounts for every cleaned name |
| `Scan.ReportCounts` | scan_my_home.py:99-110 | the printed records and the warnings together number the listed names |
| `Scan.ReportErrors` | scan_my_home.py:99-130 | a run fails exactly when some readable size text is rejected by `float` (with that first error) or some readable size text yields `None` |
| `Scan.ReportOrder` | scan_my_home.py:126 | the printed records are in non-increasing size order, ties in listing order |
| `Scan.ReportRecords` | scan_my_home.py:109-126 | the printed records are a permutation of the width-carrying records, each naming a readable entry and holding `str2size` of its size text |
| `Scan.ReportTotal` | scan_my_home.py:128-130 | the total is the sum of the sizes of the readable entries, in listing order |
| `Scan.ReportWidths` | scan_my_home.py:112-124 | every printed record carries the maxima over all listed entries, its type width stays 3, and the misspelled attribute holds the type maximum |
| `Scan.ColumnsAlign` | scan_my_home.py:18-23 | in every printed line the type column, the size column and the raw size start at the same offsets |

## Left out

- Subprocesses and the file system (`whoami`, `ls -a`, `du -sh`, `os.path.isdir`): their outputs are inputs of `Scan.Scan`; the cp1250 decoding of the listing is not modelled.
- The default home directory `/home/<user>/` (lines 59-60) and the usage message for more than one argument (lines 67-71): `Scan.Scan` models a run given exactly one directory argument.
- Splitting the `ls` and `du` commands on blanks and `%`: a path holding these characters would be split differently; the model treats every name as one path.
- Printing: the progress dots, the warning text, the `Total:` line and the record lines are not produced; the report holds the data they show, and `FileInfos.FileInfo.ToString` takes `str(self.size)` as a parameter because Python's float rendering is not modelled.
- Floating point: sizes are exact reals, so rounding in `float` and in the products by 1000 is not modelled.
- `SizeParse.ParseDecimal`: accepts only ASCII digits with at most one point and at least one digit; the other forms Python's `float` accepts (blanks, sign, exponent, underscores, `inf`, `nan`) are treated as rejected.
- `SizeParse.Str2Size`: `str.isnumeric` is restricted to ASCII digits; other Unicode numerals are not recognised.
- `Scan.SortBySize`: a `None` size makes the sort raise TypeError for two or more records and the sum raise TypeError otherwise; both are `UnorderableSize`, and which of the two statements raised is not distinguished.
- Warnings printed before a later exception are not part of a failed run's result.

