/** The body of `main` after the listing: measure every listed name, keep the
    readable ones as records, track the column widths, hand the widths to the
    records, sort by size and add the sizes up. */
module Scan {
  import opened Results
  import opened Text
  import opened SizeParse
  import opened FileInfos
  import opened Listing
  import opened Sorting

  /** What the environment reports for one full path: `os.path.isdir`, and what
      `du -sh` wrote to its standard error and standard output. */
  datatype Probe = Probe(isDir: bool, stderr: string, stdout: string)

  /** One name of the cleaned listing with the probe of its full path. */
  datatype Entry = Entry(name: string, probe: Probe)

  /** The type tag: `'d'` for a directory, `'f'` otherwise. */
  function FType(e: Entry): (t: string)
    ensures t == "d" <==> e.probe.isDir
    ensures t == "f" <==> !e.probe.isDir
    ensures |t| == 1
  {
    if e.probe.isDir then "d" else "f"
  }

  /** An entry is readable when `du` wrote nothing to standard error. */
  predicate Readable(e: Entry) {
    e.probe.stderr == ""
  }

  /** `out.split('\n')[0].split('\t')[0]`: the size column of `du`'s first line. */
  function SizeStr(e: Entry): (s: string)
    ensures '\n' !in s && '\t' !in s
    // a prefix of the output that stops at its first newline or tab
    ensures |s| <= |e.probe.stdout| && s == e.probe.stdout[..|s|]
    ensures |s| < |e.probe.stdout| ==> e.probe.stdout[|s|] == '\n' || e.probe.stdout[|s|] == '\t'
  {
    var line := FirstField(e.probe.stdout, '\n');
    assert line[..|FirstField(line, '\t')|] == e.probe.stdout[..|FirstField(line, '\t')|];
    FirstField(line, '\t')
  }

  /** A readable entry whose size text makes `float` raise. */
  predicate Fails(e: Entry) {
    Readable(e) && Str2Size(SizeStr(e)) == Malformed
  }

  /** The record `main` appends for a readable entry whose size parsed. */
  function MakeRecord(e: Entry): (f: FileInfo)
    requires !Fails(e) && Readable(e)
    ensures f.name == e.name && f.ftype == FType(e) && f.sizestr == SizeStr(e)
    ensures f.size == None <==> Str2Size(SizeStr(e)) == NoSize
    ensures f.size.Some? ==> Str2Size(SizeStr(e)) == Size(f.size.value)
    ensures f.widthName == InitialWidthName && f.widthFtype == InitialWidthFtype
    ensures f.widthSizestr == InitialWidthSizestr && f.widthFtyle == None
  {
    var size := match Str2Size(SizeStr(e))
      case Size(v) => Some(v)
      case _ => None;
    NewFileInfo(e.name, FType(e), SizeStr(e), size)
  }

  /** The readable entries, in listing order. */
  function Kept(es: seq<Entry>): (r: seq<Entry>)
    ensures |r| <= |es|
    ensures forall j :: 0 <= j < |r| ==> r[j] in es && Readable(r[j])
    ensures forall i :: 0 <= i < |es| && Readable(es[i]) ==> es[i] in r
  {
    if |es| == 0 then []
    else if Readable(es[0]) then [es[0]] + Kept(es[1..])
    else Kept(es[1..])
  }

  lemma {:induction false} KeptAppend(a: seq<Entry>, b: seq<Entry>)
    ensures Kept(a + b) == Kept(a) + Kept(b)
  {
    if |a| == 0 {
      assert a + b == b;
    } else {
      assert (a + b)[1..] == a[1..] + b;
      KeptAppend(a[1..], b);
    }
  }

  /** Indexing past the head of `[e] + s` indexes `s`. */
  lemma ConsIndex<T>(e: T, s: seq<T>)
    ensures forall j :: 0 < j < |s| + 1 ==> ([e] + s)[j] == s[j - 1]
  {
  }

  /** Indexing past the head of `s` indexes `s[1..]`. */
  lemma TailIndex<T>(s: seq<T>)
    requires |s| > 0
    ensures forall i :: 1 <= i < |s| ==> s[i] == s[1..][i - 1]
  {
  }

  /** An entry that does not fail in front of a listing without failures
      leaves a listing without failures. */
  lemma NoFailureCons(es: seq<Entry>)
    requires |es| > 0 && !Fails(es[0])
    requires forall i :: 0 <= i < |es| - 1 ==> !Fails(es[1..][i])
    ensures forall i :: 0 <= i < |es| ==> !Fails(es[i])
  {
    TailIndex(es);
  }

  /** Putting a readable entry in front puts its record in front. */
  lemma RecordCons(e: Entry, ks: seq<Entry>, rest: seq<FileInfo>)
    requires Readable(e) && !Fails(e)
    requires |rest| == |ks|
    requires forall j :: 0 <= j < |ks| ==> Readable(ks[j]) && !Fails(ks[j]) && rest[j] == MakeRecord(ks[j])
    ensures forall j :: 0 <= j < |ks| + 1 ==>
              var k := ([e] + ks)[j];
              Readable(k) && !Fails(k) && ([MakeRecord(e)] + rest)[j] == MakeRecord(k)
  {
    ConsIndex(e, ks);
    ConsIndex(MakeRecord(e), rest);
  }

  /** Putting an entry that does not fail in front of a listing that succeeded
      puts its record, if it is readable, in front of the records. */
  lemma RecordsCons(es: seq<Entry>, rest: seq<FileInfo>)
    requires |es| > 0 && !Fails(es[0])
    requires forall i :: 0 <= i < |es| - 1 ==> !Fails(es[1..][i])
    requires |rest| == |Kept(es[1..])|
    requires forall j :: 0 <= j < |rest| ==>
               !Fails(Kept(es[1..])[j]) && rest[j] == MakeRecord(Kept(es[1..])[j])
    ensures var r := if Readable(es[0]) then [MakeRecord(es[0])] + rest else rest;
            && (forall i :: 0 <= i < |es| ==> !Fails(es[i]))
            && |r| == |Kept(es)|
            && forall j :: 0 <= j < |r| ==> !Fails(Kept(es)[j]) && r[j] == MakeRecord(Kept(es)[j])
  {
    NoFailureCons(es);
    if Readable(es[0]) {
      assert Kept(es) == [es[0]] + Kept(es[1..]);
      RecordCons(es[0], Kept(es[1..]), rest);
    } else {
      assert Kept(es) == Kept(es[1..]);
    }
  }

  /** The first failure of the tail is the first failure of the whole list
      when the head does not fail. */
  lemma FirstFailureShift(es: seq<Entry>, err: ScanError)
    requires |es| > 0 && !Fails(es[0])
    requires exists i :: 0 <= i < |es| - 1 && Fails(es[1..][i])
                         && (forall h :: 0 <= h < i ==> !Fails(es[1..][h]))
                         && err == MalformedSize(SizeStr(es[1..][i]))
    ensures exists i :: 0 <= i < |es| && Fails(es[i])
                        && (forall h :: 0 <= h < i ==> !Fails(es[h]))
                        && err == MalformedSize(SizeStr(es[i]))
  {
    var i :| 0 <= i < |es| - 1 && Fails(es[1..][i])
             && (forall h :: 0 <= h < i ==> !Fails(es[1..][h]))
             && err == MalformedSize(SizeStr(es[1..][i]));
    TailIndex(es);
    assert es[i + 1] == es[1..][i];
  }

  /** The records the loop appends: one per readable entry, in listing order;
      the first readable entry whose size text `float` rejects raises instead. */
  function Records(es: seq<Entry>): (r: Result<seq<FileInfo>>)
    ensures r.Ok? <==> forall i :: 0 <= i < |es| ==> !Fails(es[i])
    ensures r.Ok? ==> |r.value| == |Kept(es)|
    ensures r.Ok? ==> forall j :: 0 <= j < |r.value| ==>
                        (!Fails(Kept(es)[j]) && r.value[j] == MakeRecord(Kept(es)[j]))
    ensures r.Err? ==> exists i :: 0 <= i < |es| && Fails(es[i])
                                   && (forall h :: 0 <= h < i ==> !Fails(es[h]))
                                   && r.error == MalformedSize(SizeStr(es[i]))
  {
    if |es| == 0 then Ok([])
    else
      var e := es[0];
      if Fails(e) then Err(MalformedSize(SizeStr(e)))
      else
        match Records(es[1..])
        case Err(err) =>
          FirstFailureShift(es, err);
          Err(err)
        case Ok(rest) =>
          RecordsCons(es, rest);
          if Readable(e) then Ok([MakeRecord(e)] + rest) else Ok(rest)
  }

  /** The three running maxima of the loop. */
  datatype Widths = Widths(name: nat, ftype: nat, sizestr: nat)

  /** One iteration's width updates; they run whether or not the entry is readable.
      Each width becomes the larger of itself and the entry's field length. */
  function Track(w: Widths, e: Entry): (r: Widths)
    ensures r.name >= w.name && r.name >= |e.name| && (r.name == w.name || r.name == |e.name|)
    ensures r.ftype >= w.ftype && r.ftype >= |FType(e)| && (r.ftype == w.ftype || r.ftype == |FType(e)|)
    ensures r.sizestr >= w.sizestr && r.sizestr >= |SizeStr(e)|
            && (r.sizestr == w.sizestr || r.sizestr == |SizeStr(e)|)
  {
    Widths(
      if |e.name| > w.name then |e.name| else w.name,
      if |FType(e)| > w.ftype then |FType(e)| else w.ftype,
      if |SizeStr(e)| > w.sizestr then |SizeStr(e)| else w.sizestr)
  }

  /** An iteration keeps the loop's facts about the name width: it is at least
      every name length seen so far and is one of them (or still 0). */
  lemma TrackName(w: Widths, init: seq<Entry>, e: Entry)
    requires forall i :: 0 <= i < |init| ==> |init[i].name| <= w.name
    requires w.name == 0 || exists i :: 0 <= i < |init| && w.name == |init[i].name|
    ensures var es := init + [e];
            var r := Track(w, e);
            && (forall i :: 0 <= i < |es| ==> |es[i].name| <= r.name)
            && (r.name == 0 || exists i :: 0 <= i < |es| && r.name == |es[i].name|)
  {
    var es := init + [e];
    assert forall i :: 0 <= i < |init| ==> es[i] == init[i];
    assert es[|init|] == e;
  }

  /** The same for the size-text width. */
  lemma TrackSizestr(w: Widths, init: seq<Entry>, e: Entry)
    requires forall i :: 0 <= i < |init| ==> |SizeStr(init[i])| <= w.sizestr
    requires w.sizestr == 0 || exists i :: 0 <= i < |init| && w.sizestr == |SizeStr(init[i])|
    ensures var es := init + [e];
            var r := Track(w, e);
            && (forall i :: 0 <= i < |es| ==> |SizeStr(es[i])| <= r.sizestr)
            && (r.sizestr == 0 || exists i :: 0 <= i < |es| && r.sizestr == |SizeStr(es[i])|)
  {
    var es := init + [e];
    assert forall i :: 0 <= i < |init| ==> es[i] == init[i];
    assert es[|init|] == e;
  }

  /** The widths after the loop has seen every entry of `es`, readable or not. */
  function MaxWidths(es: seq<Entry>): (w: Widths)
    ensures forall i :: 0 <= i < |es| ==> |es[i].name| <= w.name
    ensures forall i :: 0 <= i < |es| ==> |SizeStr(es[i])| <= w.sizestr
    ensures w.name == 0 || exists i :: 0 <= i < |es| && w.name == |es[i].name|
    ensures w.sizestr == 0 || exists i :: 0 <= i < |es| && w.sizestr == |SizeStr(es[i])|
    ensures w.ftype == if |es| == 0 then 0 else 1
  {
    if |es| == 0 then Widths(0, 0, 0)
    else
      var init := es[..|es| - 1];
      assert es == init + [es[|es| - 1]];
      TrackName(MaxWidths(init), init, es[|es| - 1]);
      TrackSizestr(MaxWidths(init), init, es[|es| - 1]);
      Track(MaxWidths(es[..|es| - 1]), es[|es| - 1])
  }

  /** The second loop: every record receives the three widths through its setters. */
  function ApplyWidths(rs: seq<FileInfo>, w: Widths): (r: seq<FileInfo>)
    ensures |r| == |rs|
    ensures forall i :: 0 <= i < |r| ==> r[i].widthName == w.name && r[i].widthSizestr == w.sizestr
    // the type width is untouched: the setter writes `width_ftyle` instead
    ensures forall i :: 0 <= i < |r| ==> r[i].widthFtype == rs[i].widthFtype && r[i].widthFtyle == Some(w.ftype)
    ensures forall i :: 0 <= i < |r| ==>
              r[i].(widthName := rs[i].widthName, widthSizestr := rs[i].widthSizestr,
                    widthFtyle := rs[i].widthFtyle) == rs[i]
  {
    seq(|rs|, i requires 0 <= i < |rs| =>
      rs[i].SetWidthName(w.name).SetWidthFtype(w.ftype).SetWidthSizestr(w.sizestr))
  }

  /** The sort key; `None` never reaches a comparison that succeeds. */
  function SizeKey(f: FileInfo): real {
    match f.size
    case Some(v) => v
    case None => 0.0
  }

  predicate AllSized(rs: seq<FileInfo>) {
    forall i :: 0 <= i < |rs| ==> rs[i].size.Some?
  }

  /** `filelist.sort(key=lambda x: x.size, reverse=True)`. With two or more
      records every key takes part in a comparison, and a `None` key raises
      TypeError; a single record is never compared. */
  function SortBySize(rs: seq<FileInfo>): (r: Result<seq<FileInfo>>)
    ensures r.Err? <==> |rs| >= 2 && !AllSized(rs)
    ensures r.Err? ==> r.error == UnorderableSize
    ensures r.Ok? ==> Descending(SizeKey, r.value)
    ensures r.Ok? ==> multiset(r.value) == multiset(rs)
    ensures r.Ok? ==> SameTies(SizeKey, r.value, rs)
  {
    if AllSized(rs) then
      SortDescendingIsStable(SizeKey, rs);
      Ok(SortDescending(SizeKey, rs))
    else if |rs| <= 1 then Ok(rs)
    else Err(UnorderableSize)
  }

  /** The summing loop: `0 + None` raises TypeError. */
  function Total(rs: seq<FileInfo>): (r: Result<real>)
    ensures r.Err? <==> !AllSized(rs)
    ensures r.Err? ==> r.error == UnorderableSize
  {
    if AllSized(rs) then Ok(SumOf(SizeKey, rs)) else Err(UnorderableSize)
  }

  /** The paths warned about for `es` with one more entry in front. */
  lemma WarningsStep(home: string, es: seq<Entry>, rest: seq<string>)
    requires |es| > 0
    requires |rest| + |Kept(es[1..])| == |es| - 1
    requires forall i :: 0 <= i < |es| - 1 && !Readable(es[1..][i]) ==> home + es[1..][i].name in rest
    requires forall k :: 0 <= k < |rest| ==>
               exists i :: 0 <= i < |es| - 1 && !Readable(es[1..][i]) && rest[k] == home + es[1..][i].name
    ensures var r := if Readable(es[0]) then rest else [home + es[0].name] + rest;
            && |r| + |Kept(es)| == |es|
            && (forall i :: 0 <= i < |es| && !Readable(es[i]) ==> home + es[i].name in r)
            && (forall k :: 0 <= k < |r| ==>
                  exists i :: 0 <= i < |es| && !Readable(es[i]) && r[k] == home + es[i].name)
  {
    var r := if Readable(es[0]) then rest else [home + es[0].name] + rest;
    TailIndex(es);
    forall k | 0 <= k < |r|
      ensures exists i :: 0 <= i < |es| && !Readable(es[i]) && r[k] == home + es[i].name
    {
      if Readable(es[0]) || k > 0 {
        var k' := if Readable(es[0]) then k else k - 1;
        assert r[k] == rest[k'];
        var i :| 0 <= i < |es| - 1 && !Readable(es[1..][i]) && rest[k'] == home + es[1..][i].name;
        assert es[i + 1] == es[1..][i];
      } else {
        assert r[0] == home + es[0].name;
      }
    }
  }

  /** The full paths the loop warns about, one per unreadable entry, in
      listing order. */
  function WarnedPaths(home: string, es: seq<Entry>): seq<string> {
    if |es| == 0 then []
    else (if Readable(es[0]) then [] else [home + es[0].name]) + WarnedPaths(home, es[1..])
  }

  /** Every unreadable entry is warned about, and nothing else is. */
  lemma {:induction false} WarnedPathsComplete(home: string, es: seq<Entry>)
    ensures var r := WarnedPaths(home, es);
            && |r| + |Kept(es)| == |es|
            && (forall i :: 0 <= i < |es| && !Readable(es[i]) ==> home + es[i].name in r)
            && (forall k :: 0 <= k < |r| ==>
                  exists i :: 0 <= i < |es| && !Readable(es[i]) && r[k] == home + es[i].name)
  {
    if |es| > 0 {
      WarnedPathsComplete(home, es[1..]);
      WarningsStep(home, es, WarnedPaths(home, es[1..]));
    }
  }

  /** The warnings of `main` for the entries `es`. */
  function Warnings(home: string, es: seq<Entry>): (r: seq<string>)
    ensures |r| + |Kept(es)| == |es|
    ensures forall i :: 0 <= i < |es| && !Readable(es[i]) ==> home + es[i].name in r
    ensures forall k :: 0 <= k < |r| ==>
              exists i :: 0 <= i < |es| && !Readable(es[i]) && r[k] == home + es[i].name
  {
    WarnedPathsComplete(home, es);
    WarnedPaths(home, es)
  }

  lemma {:induction false} WarnedPathsAppend(home: string, a: seq<Entry>, b: seq<Entry>)
    ensures WarnedPaths(home, a + b) == WarnedPaths(home, a) + WarnedPaths(home, b)
  {
    if |a| == 0 {
      assert a + b == b;
    } else {
      assert (a + b)[1..] == a[1..] + b;
      WarnedPathsAppend(home, a[1..], b);
    }
  }

  /** The warnings of two listings one after the other are those of the
      first followed by those of the second: they come in listing order. */
  lemma WarningsAppend(home: string, a: seq<Entry>, b: seq<Entry>)
    ensures Warnings(home, a + b) == Warnings(home, a) + Warnings(home, b)
  {
    WarnedPathsAppend(home, a, b);
  }

  /** What a completed run prints: the sorted records, the total, the widths the
      records were given, and the paths warned about. */
  datatype Report = Report(records: seq<FileInfo>, total: real, widths: Widths, warnings: seq<string>)

  /** Lines 85-130 of `main`, given the probe of every listed name. */
  function BuildReport(home: string, es: seq<Entry>): (r: Result<Report>)
    ensures Records(es).Err? ==> r == Err(Records(es).error)
    ensures r.Ok? ==> Records(es).Ok? && r.value.widths == MaxWidths(es) && r.value.warnings == Warnings(home, es)
    ensures r.Ok? ==> Descending(SizeKey, r.value.records) && AllSized(r.value.records)
    ensures r.Ok? ==> r.value.total == SumOf(SizeKey, r.value.records)
  {
    var rs :- Records(es);
    var w := MaxWidths(es);
    var sorted :- SortBySize(ApplyWidths(rs, w));
    var total :- Total(sorted);
    Ok(Report(sorted, total, w, Warnings(home, es)))
  }

  /** Pairs every cleaned name with the probe of its full path `home + name`. */
  function Entries(home: string, names: seq<string>, env: string -> Probe): (es: seq<Entry>)
    ensures |es| == |names|
    ensures forall i :: 0 <= i < |es| ==> es[i] == Entry(names[i], env(home + names[i]))
  {
    seq(|names|, i requires 0 <= i < |names| => Entry(names[i], env(home + names[i])))
  }

  /** `main` for a run given one directory argument: `env` answers `isdir` and
      `du` for each full path, `lsOut` is what `ls -a` printed. */
  function Scan(dir: string, lsOut: string, env: string -> Probe): (r: Result<Report>)
    ensures dir == "" ==> r == Err(EmptyDirArgument)
    ensures dir != "" && CleanListing(lsOut).Err? ==> r == Err(CleanListing(lsOut).error)
    ensures r.Ok? ==> |r.value.records| + |r.value.warnings| == |CleanListing(lsOut).value|
  {
    var home :- NormaliseDir(dir);
    var names :- CleanListing(lsOut);
    var es := Entries(home, names, env);
    ReportCounts(home, es);
    BuildReport(home, es)
  }

  /** The stages of a successful run, one by one. */
  lemma BuildReportStages(home: string, es: seq<Entry>)
    requires BuildReport(home, es).Ok?
    ensures Records(es).Ok?
    ensures var applied := ApplyWidths(Records(es).value, MaxWidths(es));
            var rep := BuildReport(home, es).value;
            && SortBySize(applied) == Ok(rep.records)
            && AllSized(rep.records)
            && rep.total == SumOf(SizeKey, rep.records)
            && rep.widths == MaxWidths(es)
            && rep.warnings == Warnings(home, es)
  {
    var w := MaxWidths(es);
    var sorted := SortBySize(ApplyWidths(Records(es).value, w));
    assert sorted.Ok?;
    var total := Total(sorted.value);
    assert total.Ok?;
    assert BuildReport(home, es) == Ok(Report(sorted.value, total.value, w, Warnings(home, es)));
  }

  /** Record `k` of the width-carrying list, before sorting, comes from the
      `k`-th readable entry. */
  lemma AppliedRecord(es: seq<Entry>, k: nat)
    requires Records(es).Ok?
    requires k < |Records(es).value|
    ensures var f := ApplyWidths(Records(es).value, MaxWidths(es))[k];
            var e := Kept(es)[k];
            && e in es && Readable(e) && !Fails(e)
            && f.name == e.name && f.ftype == FType(e) && f.sizestr == SizeStr(e)
            && (f.size.Some? ==> Str2Size(SizeStr(e)) == Size(f.size.value))
            && f.widthName == MaxWidths(es).name && f.widthSizestr == MaxWidths(es).sizestr
            && f.widthFtype == InitialWidthFtype && f.widthFtyle == Some(MaxWidths(es).ftype)
  {
  }

  /** A printed record is one of the width-carrying records. */
  lemma PrintedIsApplied(home: string, es: seq<Entry>, f: FileInfo)
    requires BuildReport(home, es).Ok?
    requires f in BuildReport(home, es).value.records
    ensures Records(es).Ok?
    ensures exists k :: 0 <= k < |Records(es).value|
                        && ApplyWidths(Records(es).value, MaxWidths(es))[k] == f
  {
    BuildReportStages(home, es);
    var applied := ApplyWidths(Records(es).value, MaxWidths(es));
    var out := BuildReport(home, es).value.records;
    assert multiset(out) == multiset(applied);
    assert f in multiset(out);
    assert f in applied;
  }

  /** Every listed name ends up either as a record or as a warning. */
  lemma ReportCounts(home: string, es: seq<Entry>)
    ensures BuildReport(home, es).Ok? ==>
              |BuildReport(home, es).value.records| + |BuildReport(home, es).value.warnings| == |es|
  {
    if BuildReport(home, es).Ok? {
      BuildReportStages(home, es);
      var applied := ApplyWidths(Records(es).value, MaxWidths(es));
      assert |multiset(BuildReport(home, es).value.records)| == |multiset(applied)|;
    }
  }

  /** A width-carrying record has a size exactly when its entry's size text
      did not come back as `None`. */
  lemma AppliedSize(es: seq<Entry>, k: nat)
    requires Records(es).Ok?
    requires k < |Records(es).value|
    ensures ApplyWidths(Records(es).value, MaxWidths(es))[k].size.Some?
            <==> Str2Size(SizeStr(Kept(es)[k])) != NoSize
  {
    var rs := Records(es).value;
    assert ApplyWidths(rs, MaxWidths(es))[k].size == rs[k].size;
    assert rs[k] == MakeRecord(Kept(es)[k]);
  }

  /** The width-carrying records all have a size exactly when no readable
      entry's size text came back as `None`. */
  lemma AppliedSized(es: seq<Entry>)
    requires Records(es).Ok?
    ensures AllSized(ApplyWidths(Records(es).value, MaxWidths(es)))
            <==> forall j :: 0 <= j < |Kept(es)| ==> Str2Size(SizeStr(Kept(es)[j])) != NoSize
  {
    var applied := ApplyWidths(Records(es).value, MaxWidths(es));
    if AllSized(applied) {
      forall j | 0 <= j < |Kept(es)|
        ensures Str2Size(SizeStr(Kept(es)[j])) != NoSize
      {
        AppliedSize(es, j);
      }
    } else {
      var k :| 0 <= k < |applied| && applied[k].size.None?;
      AppliedSize(es, k);
    }
  }

  /** Sorting keeps every record, so it keeps every size present. */
  lemma SortedSized(rs: seq<FileInfo>)
    requires AllSized(rs)
    ensures SortBySize(rs).Ok? && AllSized(SortBySize(rs).value)
  {
    var out := SortBySize(rs).value;
    forall i | 0 <= i < |out|
      ensures out[i].size.Some?
    {
      assert out[i] in multiset(rs);
    }
  }

  /** A run fails with the ValueError of the first readable entry whose size
      text `float` rejects (see `Records`); otherwise it fails exactly when some
      readable entry's size came back as `None`. */
  lemma ReportErrors(home: string, es: seq<Entry>)
    ensures BuildReport(home, es).Err? <==>
              (exists i :: 0 <= i < |es| && Fails(es[i]))
              || (exists j :: 0 <= j < |Kept(es)| && Str2Size(SizeStr(Kept(es)[j])) == NoSize)
    ensures (exists i :: 0 <= i < |es| && Fails(es[i])) ==> BuildReport(home, es) == Err(Records(es).error)
  {
    var r := Records(es);
    if r.Ok? {
      var applied := ApplyWidths(r.value, MaxWidths(es));
      AppliedSized(es);
      if AllSized(applied) {
        SortedSized(applied);
      } else if |applied| <= 1 {
        assert SortBySize(applied) == Ok(applied);
      }
    }
  }

  /** The printed records come in non-increasing size order, and records of equal
      size keep the order in which `ls` listed them. */
  lemma ReportOrder(home: string, es: seq<Entry>)
    requires BuildReport(home, es).Ok?
    ensures Descending(SizeKey, BuildReport(home, es).value.records)
    ensures SameTies(SizeKey, BuildReport(home, es).value.records,
                     ApplyWidths(Records(es).value, MaxWidths(es)))
  {
    BuildReportStages(home, es);
  }

  /** A width-carrying record names a readable entry and holds its parsed size. */
  lemma AppliedOrigin(es: seq<Entry>, k: nat)
    requires Records(es).Ok?
    requires k < |Records(es).value|
    requires ApplyWidths(Records(es).value, MaxWidths(es))[k].size.Some?
    ensures var f := ApplyWidths(Records(es).value, MaxWidths(es))[k];
            exists i :: 0 <= i < |es| && Readable(es[i]) && f.name == es[i].name
                        && Str2Size(SizeStr(es[i])) == Size(f.size.value)
  {
    AppliedRecord(es, k);
    var i :| 0 <= i < |es| && es[i] == Kept(es)[k];
  }

  /** The printed records are exactly the readable entries: a permutation of one
      record per readable entry, each sized by `str2size` of its size text. */
  lemma ReportRecords(home: string, es: seq<Entry>)
    requires BuildReport(home, es).Ok?
    ensures var rs := Records(es).value;
            multiset(BuildReport(home, es).value.records) == multiset(ApplyWidths(rs, MaxWidths(es)))
    ensures forall f :: f in BuildReport(home, es).value.records ==>
              exists i :: 0 <= i < |es| && Readable(es[i]) && f.name == es[i].name
                          && f.size.Some? && Str2Size(SizeStr(es[i])) == Size(f.size.value)
  {
    BuildReportStages(home, es);
    var out := BuildReport(home, es).value.records;
    forall f | f in out
      ensures exists i :: 0 <= i < |es| && Readable(es[i]) && f.name == es[i].name
                          && f.size.Some? && Str2Size(SizeStr(es[i])) == Size(f.size.value)
    {
      PrintedIsApplied(home, es, f);
      var k :| 0 <= k < |Records(es).value| && ApplyWidths(Records(es).value, MaxWidths(es))[k] == f;
      AppliedOrigin(es, k);
    }
  }

  lemma {:induction false} SumOfApplied(rs: seq<FileInfo>, w: Widths)
    ensures SumOf(SizeKey, ApplyWidths(rs, w)) == SumOf(SizeKey, rs)
  {
    if |rs| > 0 {
      SumOfApplied(rs[1..], w);
      assert ApplyWidths(rs, w)[1..] == ApplyWidths(rs[1..], w);
    }
  }

  /** The total is the sum of the sizes of the readable entries, in listing order;
      unreadable entries add nothing. */
  lemma ReportTotal(home: string, es: seq<Entry>)
    requires BuildReport(home, es).Ok?
    ensures BuildReport(home, es).value.total == SumOf(SizeKey, Records(es).value)
  {
    BuildReportStages(home, es);
    var rs := Records(es).value;
    var applied := ApplyWidths(rs, MaxWidths(es));
    SumOfApplied(rs, MaxWidths(es));
    if AllSized(applied) {
      SumOfSorted(SizeKey, applied);
    }
  }

  /** Every record carries the name and size-text maxima over ALL listed entries,
      unreadable ones included; its type width stays at 3 while the misspelled
      attribute holds the type maximum. */
  lemma ReportWidths(home: string, es: seq<Entry>)
    requires BuildReport(home, es).Ok?
    ensures var rep := BuildReport(home, es).value;
            && rep.widths == MaxWidths(es)
            && forall f :: f in rep.records ==>
                 && f.widthName == rep.widths.name
                 && f.widthSizestr == rep.widths.sizestr
                 && f.widthFtype == InitialWidthFtype
                 && f.widthFtyle == Some(rep.widths.ftype)
  {
    BuildReportStages(home, es);
    var out := BuildReport(home, es).value.records;
    forall f | f in out
      ensures f.widthName == MaxWidths(es).name && f.widthSizestr == MaxWidths(es).sizestr
      ensures f.widthFtype == InitialWidthFtype && f.widthFtyle == Some(MaxWidths(es).ftype)
    {
      PrintedIsApplied(home, es, f);
      var k :| 0 <= k < |Records(es).value| && ApplyWidths(Records(es).value, MaxWidths(es))[k] == f;
      AppliedRecord(es, k);
    }
  }

  /** Every listed entry fits the widths. */
  lemma FitsWidths(es: seq<Entry>, e: Entry)
    requires e in es
    ensures |e.name| <= MaxWidths(es).name && |SizeStr(e)| <= MaxWidths(es).sizestr
  {
    var i :| 0 <= i < |es| && es[i] == e;
  }

  /** The column offsets of one width-carrying record. */
  lemma AppliedColumns(es: seq<Entry>, k: nat)
    requires Records(es).Ok?
    requires k < |Records(es).value|
    ensures var w := MaxWidths(es);
            var f := ApplyWidths(Records(es).value, w)[k];
            && f.TypeOffset() == 6 + w.name
            && f.SizeOffset() == 6 + w.name + 7 + InitialWidthFtype
            && f.RawOffset() == 6 + w.name + 7 + InitialWidthFtype + 7 + w.sizestr
  {
    var w := MaxWidths(es);
    var f := ApplyWidths(Records(es).value, w)[k];
    AppliedRecord(es, k);
    FitsWidths(es, Kept(es)[k]);
    ColumnOffsets(f);
    assert Max(|f.name|, f.widthName) == w.name;
    assert Max(|f.ftype|, f.widthFtype) == InitialWidthFtype;
    assert Max(|f.sizestr|, f.widthSizestr) == w.sizestr;
  }

  /** The column offsets of one printed record. */
  lemma PrintedColumns(home: string, es: seq<Entry>, f: FileInfo)
    requires BuildReport(home, es).Ok?
    requires f in BuildReport(home, es).value.records
    ensures var w := BuildReport(home, es).value.widths;
            && f.TypeOffset() == 6 + w.name
            && f.SizeOffset() == 6 + w.name + 7 + InitialWidthFtype
            && f.RawOffset() == 6 + w.name + 7 + InitialWidthFtype + 7 + w.sizestr
  {
    BuildReportStages(home, es);
    PrintedIsApplied(home, es, f);
    var k :| 0 <= k < |Records(es).value| && ApplyWidths(Records(es).value, MaxWidths(es))[k] == f;
    AppliedColumns(es, k);
  }

  /** What the widths are for: in every printed line the type column starts
      at the same offset and so do the size column and the raw size, because
      every name and every size text fits its width and every type tag fits the
      unchanged type width of 3. */
  lemma ColumnsAlign(home: string, es: seq<Entry>)
    requires BuildReport(home, es).Ok?
    ensures var rep := BuildReport(home, es).value;
            forall f :: f in rep.records ==>
              && f.TypeOffset() == 6 + rep.widths.name
              && f.SizeOffset() == 6 + rep.widths.name + 7 + InitialWidthFtype
              && f.RawOffset() == 6 + rep.widths.name + 7 + InitialWidthFtype + 7 + rep.widths.sizestr
  {
    forall f | f in BuildReport(home, es).value.records
      ensures var w := BuildReport(home, es).value.widths;
              && f.TypeOffset() == 6 + w.name
              && f.SizeOffset() == 6 + w.name + 7 + InitialWidthFtype
              && f.RawOffset() == 6 + w.name + 7 + InitialWidthFtype + 7 + w.sizestr
    {
      PrintedColumns(home, es, f);
    }
  }
}
