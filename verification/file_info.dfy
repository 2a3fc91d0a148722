/** The `file_info` record: one listed entry with its type tag, the size text
    `du` printed, the parsed size, and the column widths used when printing it. */
module FileInfos {
  import opened Results
  import opened Text

  /** Widths a new record starts with. */
  const InitialWidthName: nat := 45
  const InitialWidthFtype: nat := 3
  const InitialWidthSizestr: nat := 7

  /** `size` is whatever `str2size` returned, so it may be Python's `None`.
      `widthFtyle` is the misspelled attribute that `setWidthFtype` creates:
      absent until that setter runs, and never read by `__str__`. */
  datatype FileInfo = FileInfo(
    name: string,
    ftype: string,
    sizestr: string,
    size: Option<real>,
    widthName: int,
    widthFtype: int,
    widthSizestr: int,
    widthFtyle: Option<int>)
  {
    /** `setWidthName`: only the name width changes. */
    function SetWidthName(w: int): (r: FileInfo)
      ensures r.widthName == w
      ensures r.(widthName := widthName) == this
    {
      this.(widthName := w)
    }

    /** `setWidthFtype`: assigns `width_ftyle`, so the type width `__str__` uses
        keeps its value and a separate attribute records `w`. */
    function SetWidthFtype(w: int): (r: FileInfo)
      ensures r.widthFtype == widthFtype
      ensures r.widthFtyle == Some(w)
      ensures r.(widthFtyle := widthFtyle) == this
    {
      this.(widthFtyle := Some(w))
    }

    /** `setWidthSizestr`: only the size-text width changes. */
    function SetWidthSizestr(w: int): (r: FileInfo)
      ensures r.widthSizestr == w
      ensures r.(widthSizestr := widthSizestr) == this
    {
      this.(widthSizestr := w)
    }

    /** Where the `\tType: ` marker starts in the printed line. */
    function TypeOffset(): nat {
      6 + |PadRight(name, widthName)|
    }

    /** Where the `\tSize: ` marker starts in the printed line. */
    function SizeOffset(): nat {
      TypeOffset() + 7 + |PadRight(ftype, widthFtype)|
    }

    /** Where the ` (` before the raw size starts in the printed line. */
    function RawOffset(): nat {
      SizeOffset() + 7 + |PadRight(sizestr, widthSizestr)|
    }

    /** `__str__`. `sizeText` stands for `str(self.size)`, Python's rendering
        of the parsed size, which this model does not reproduce. */
    function ToString(sizeText: string): (r: string)
      ensures |r| == RawOffset() + 4 + |sizeText|
    {
      "Name: " + PadRight(name, widthName)
        + "\tType: " + PadRight(ftype, widthFtype)
        + "\tSize: " + PadRight(sizestr, widthSizestr)
        + " (" + sizeText + "B)"
    }
  }

  /** One column of a printed line: after `pre` come the label, then the field,
      then blanks up to the column width. */
  lemma ColumnAt(pre: string, tag: string, field: string, width: int, post: string)
    ensures var r := pre + tag + PadRight(field, width) + post;
            var o := |pre| + |tag|;
            && r[|pre|..o] == tag
            && r[o..o + |field|] == field
            && forall i :: o + |field| <= i < o + |PadRight(field, width)| ==> r[i] == ' '
  {
    var p := PadRight(field, width);
    var r := pre + tag + p + post;
    var o := |pre| + |tag|;
    assert r[|pre|..o] == tag;
    assert r[o..o + |p|] == p;
    assert p[..|field|] == field;
    assert r[o..o + |field|] == field;
  }

  /** The three columns end where the widths say: each is as wide as its
      width or its field, whichever is larger. */
  lemma ColumnOffsets(f: FileInfo)
    ensures f.TypeOffset() == 6 + Max(|f.name|, f.widthName)
    ensures f.SizeOffset() == f.TypeOffset() + 7 + Max(|f.ftype|, f.widthFtype)
    ensures f.RawOffset() == f.SizeOffset() + 7 + Max(|f.sizestr|, f.widthSizestr)
  {
  }

  /** The printed line opens with `Name: `, the name, and blanks up to the type column. */
  lemma {:induction false} NameColumn(f: FileInfo, sizeText: string)
    ensures f.ToString(sizeText)[..6] == "Name: "
    ensures f.ToString(sizeText)[6..6 + |f.name|] == f.name
    ensures forall i :: 6 + |f.name| <= i < f.TypeOffset() ==> f.ToString(sizeText)[i] == ' '
  {
    var pt := PadRight(f.ftype, f.widthFtype);
    var ps := PadRight(f.sizestr, f.widthSizestr);
    var post := "\tType: " + pt + "\tSize: " + ps + " (" + sizeText + "B)";
    assert f.ToString(sizeText) == "Name: " + PadRight(f.name, f.widthName) + post;
    assert "" + "Name: " == "Name: ";
    ColumnAt("", "Name: ", f.name, f.widthName, post);
  }

  /** At the type offset come `\tType: `, the type tag, and blanks up to the size column. */
  lemma {:induction false} TypeColumn(f: FileInfo, sizeText: string)
    ensures f.ToString(sizeText)[f.TypeOffset()..f.TypeOffset() + 7] == "\tType: "
    ensures f.ToString(sizeText)[f.TypeOffset() + 7..f.TypeOffset() + 7 + |f.ftype|] == f.ftype
    ensures forall i :: f.TypeOffset() + 7 + |f.ftype| <= i < f.SizeOffset() ==> f.ToString(sizeText)[i] == ' '
  {
    var pre := "Name: " + PadRight(f.name, f.widthName);
    var ps := PadRight(f.sizestr, f.widthSizestr);
    var post := "\tSize: " + ps + " (" + sizeText + "B)";
    ColumnAt(pre, "\tType: ", f.ftype, f.widthFtype, post);
    assert f.ToString(sizeText) == pre + "\tType: " + PadRight(f.ftype, f.widthFtype) + post;
  }

  /** At the size offset come `\tSize: `, the size text, and blanks up to the raw
      size, which closes the line. */
  lemma {:induction false} SizeColumn(f: FileInfo, sizeText: string)
    ensures f.ToString(sizeText)[f.SizeOffset()..f.SizeOffset() + 7] == "\tSize: "
    ensures f.ToString(sizeText)[f.SizeOffset() + 7..f.SizeOffset() + 7 + |f.sizestr|] == f.sizestr
    ensures forall i :: f.SizeOffset() + 7 + |f.sizestr| <= i < f.RawOffset() ==> f.ToString(sizeText)[i] == ' '
    ensures f.ToString(sizeText)[f.RawOffset()..] == " (" + sizeText + "B)"
  {
    var pre := "Name: " + PadRight(f.name, f.widthName) + "\tType: " + PadRight(f.ftype, f.widthFtype);
    var post := " (" + sizeText + "B)";
    ColumnAt(pre, "\tSize: ", f.sizestr, f.widthSizestr, post);
    assert f.ToString(sizeText) == pre + "\tSize: " + PadRight(f.sizestr, f.widthSizestr) + post;
  }

  function Max(a: int, b: int): int {
    if a >= b then a else b
  }

  /** `file_info(uname, uftype, usizestr, usize)`. */
  function NewFileInfo(name: string, ftype: string, sizestr: string, size: Option<real>): (f: FileInfo)
    ensures f.name == name && f.ftype == ftype && f.sizestr == sizestr && f.size == size
    ensures f.widthName == InitialWidthName && f.widthFtype == InitialWidthFtype
    ensures f.widthSizestr == InitialWidthSizestr
    ensures f.widthFtyle == None
  {
    FileInfo(name, ftype, sizestr, size, InitialWidthName, InitialWidthFtype, InitialWidthSizestr, None)
  }
}
