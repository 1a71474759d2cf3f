/** The two catalog tools: `list_data_files`, a table of the regular files
    in the data directory, and `list_generated_images`, a table of the PNG
    images in the output directory, newest first. A directory listing is a
    parameter: `None` when the directory does not exist, otherwise the
    entries in the order `glob` yields them, each with what `stat` reports. */
module Catalog {
  import opened Wrappers
  import opened Seqs
  import opened Text

  /** A directory entry: its name, whether `is_file()` holds, and its
      `st_size` and `st_mtime`. */
  datatype Entry = Entry(name: string, isFile: bool, size: nat, mtime: real)

  predicate IsRegular(e: Entry)
  {
    e.isFile
  }

  /** The `for ... in ...: result += f"| ... |\n"` loop that follows the
      header of both tables. */
  method AppendRows<T>(header: string, items: seq<T>, render: T -> string) returns (result: string)
    ensures result == header + ConcatMap(items, render)
  {
    result := header;
    for i := 0 to |items|
      invariant result == header + ConcatMap(items[..i], render)
    {
      ConcatMapSnoc(items[..i], items[i], render);
      assert items[..i + 1] == items[..i] + [items[i]];
      Regroup(header + ConcatMap(items[..i + 1], render), ConcatMap(items[..i + 1], render),
              result, header, ConcatMap(items[..i], render), render(items[i]));
      result := result + render(items[i]);
    }
    assert items[..|items|] == items;
  }

  // ---------------------------------------------------------------------
  // list_data_files

  /** One element of `files`; `sizeMb` is `str(round(size / 2**20, 2))`,
      which the caller's `formatMb` computes. */
  datatype FileInfo = FileInfo(name: string, sizeBytes: nat, sizeMb: string, extension: string)

  function DataFileInfo(e: Entry, formatMb: nat -> string): FileInfo
  {
    FileInfo(e.name, e.size, formatMb(e.size), PathSuffix(e.name))
  }

  /** The `files` list after the `append` loop over `entries`. */
  function DataFiles(entries: seq<Entry>, formatMb: nat -> string): seq<FileInfo>
  {
    if entries == [] then []
    else
      var n := |entries| - 1;
      DataFiles(entries[..n], formatMb) + (if entries[n].isFile then [DataFileInfo(entries[n], formatMb)] else [])
  }

  /** `files` describes exactly the regular files, in enumeration order. */
  lemma {:induction false} DataFilesAreRegularFiles(entries: seq<Entry>, formatMb: nat -> string)
    ensures |DataFiles(entries, formatMb)| == |Filter(entries, IsRegular)|
    ensures forall k :: 0 <= k < |DataFiles(entries, formatMb)| ==>
              DataFiles(entries, formatMb)[k] == DataFileInfo(Filter(entries, IsRegular)[k], formatMb)
  {
    if entries != [] {
      var n := |entries| - 1;
      DataFilesAreRegularFiles(entries[..n], formatMb);
    }
  }

  function FileRow(f: FileInfo): string
  {
    "| " + f.name + " | " + f.sizeMb + " | " + f.extension + " |\n"
  }

  const DataFilesTitle: string := "Available Data Files:"
  const DataFilesColumns: string := "| Filename | Size (MB) | Type |"
  const DataFilesRule: string := "|----------|----------|------|"

  /** The title, a blank line and the table's two heading rows. */
  const DataFilesHeader: string :=
    DataFilesTitle + "\n\n" + (DataFilesColumns + "\n") + (DataFilesRule + "\n")

  const NoDataFiles: string := "No data files found in the data directory."

  function MissingDataDir(dataDir: string): string
  {
    ExplicitError("Data directory '" + dataDir + "' does not exist.")
  }

  /** The string `list_data_files` returns. */
  function DataFilesReport(dataDir: string, listing: Option<seq<Entry>>, formatMb: nat -> string): string
  {
    match listing
    case None => MissingDataDir(dataDir)
    case Some(entries) =>
      var files := DataFiles(entries, formatMb);
      if files == [] then NoDataFiles else DataFilesHeader + ConcatMap(files, FileRow)
  }

  /** The tool as the source runs it: collect the regular files, then
      append one table row for each. */
  method ListDataFiles(dataDir: string, listing: Option<seq<Entry>>, formatMb: nat -> string)
    returns (result: string)
    ensures result == DataFilesReport(dataDir, listing, formatMb)
  {
    if listing.None? {
      return MissingDataDir(dataDir);
    }
    var entries := listing.value;
    var files: seq<FileInfo> := [];
    for i := 0 to |entries|
      invariant files == DataFiles(entries[..i], formatMb)
    {
      assert entries[..i + 1][..i] == entries[..i];
      if entries[i].isFile {
        files := files + [DataFileInfo(entries[i], formatMb)];
      }
    }
    assert entries[..|entries|] == entries;
    if files == [] {
      return NoDataFiles;
    }
    var header := "Available Data Files:\n\n";
    header := header + "| Filename | Size (MB) | Type |\n";
    header := header + "|----------|----------|------|\n";
    result := AppendRows(header, files, FileRow);
  }

  /** The three outcomes: a missing directory, no regular file, or a
      table with a row for every regular file. */
  lemma DataFilesReportCases(dataDir: string, listing: Option<seq<Entry>>, formatMb: nat -> string)
    ensures listing.None? ==> StartsWith(DataFilesReport(dataDir, listing, formatMb), "Error:")
    ensures listing.Some? ==>
              (DataFilesReport(dataDir, listing, formatMb) == NoDataFiles
               <==> forall k :: 0 <= k < |listing.value| ==> !listing.value[k].isFile)
    ensures listing.Some? && (exists k :: 0 <= k < |listing.value| && listing.value[k].isFile) ==>
              forall k :: 0 <= k < |listing.value| && listing.value[k].isFile ==>
                Occurs(FileRow(DataFileInfo(listing.value[k], formatMb)), DataFilesReport(dataDir, listing, formatMb))
  {
    DataFilesReplyProtocol(dataDir, listing, formatMb);
    match listing
    case None =>
    case Some(entries) =>
      var files := DataFiles(entries, formatMb);
      var regular := Filter(entries, IsRegular);
      DataFilesAreRegularFiles(entries, formatMb);
      var report := DataFilesReport(dataDir, listing, formatMb);
      if files == [] {
        forall k | 0 <= k < |entries| ensures !entries[k].isFile {
          if entries[k].isFile {
            FilterMembership(entries, IsRegular, entries[k]);
          }
        }
      } else {
        assert report[0] == 'A';
        FilterPositions(entries, IsRegular);
        forall k | 0 <= k < |entries| && entries[k].isFile
          ensures Occurs(FileRow(DataFileInfo(entries[k], formatMb)), report)
        {
          var j :| 0 <= j < |Positions(entries, IsRegular)| && Positions(entries, IsRegular)[j] == k;
          assert files[j] == DataFileInfo(entries[k], formatMb);
          ConcatMapOccurs(files, FileRow, j);
          OccursAfter(FileRow(files[j]), ConcatMap(files, FileRow), DataFilesHeader);
        }
      }
  }

  /** Callers tell failure by the prefix: the report starts with `Error`,
      and then with `Error:`, exactly when the data directory is missing;
      an empty directory is not a failure. */
  lemma DataFilesReplyProtocol(dataDir: string, listing: Option<seq<Entry>>, formatMb: nat -> string)
    ensures StartsWith(DataFilesReport(dataDir, listing, formatMb), "Error") <==> listing.None?
    ensures StartsWith(DataFilesReport(dataDir, listing, formatMb), "Error:") <==> listing.None?
  {
    var report := DataFilesReport(dataDir, listing, formatMb);
    match listing
    case None =>
      ErrorPrefixes("Data directory '" + dataDir + "' does not exist.", "listing data files");
    case Some(entries) =>
      if DataFiles(entries, formatMb) == [] {
        assert report[0] == 'N';
      } else {
        assert report[0] == 'A';
      }
      DiffersAtFirst(report, "Error");
      DiffersAtFirst(report, "Error:");
  }

  /** The table has one line per regular file below its four header
      lines, when no name and no formatted size holds a line break. */
  lemma DataFilesReportLines(dataDir: string, entries: seq<Entry>, formatMb: nat -> string)
    requires forall e :: e in entries ==> '\n' !in e.name && '\n' !in formatMb(e.size)
    requires exists k :: 0 <= k < |entries| && entries[k].isFile
    ensures Count(DataFilesReport(dataDir, Some(entries), formatMb), IsNewline) == 4 + Count(entries, IsRegular)
  {
    var rows := ConcatMap(DataFiles(entries, formatMb), FileRow);
    DataFilesRowLines(entries, formatMb);
    DataFilesHeaderLines();
    CountAppend(DataFilesHeader, rows, IsNewline);
  }

  /** Below the header, one line per regular file. */
  lemma DataFilesRowLines(entries: seq<Entry>, formatMb: nat -> string)
    requires forall e :: e in entries ==> '\n' !in e.name && '\n' !in formatMb(e.size)
    requires exists k :: 0 <= k < |entries| && entries[k].isFile
    ensures DataFiles(entries, formatMb) != []
    ensures Count(ConcatMap(DataFiles(entries, formatMb), FileRow), IsNewline) == Count(entries, IsRegular)
  {
    RegularFilesListed(entries, formatMb);
    FileRowsOneLineEach(entries, formatMb);
    ConcatMapLines(DataFiles(entries, formatMb), FileRow);
  }

  /** Some regular file means a non-empty `files` list, one per file. */
  lemma RegularFilesListed(entries: seq<Entry>, formatMb: nat -> string)
    requires exists k :: 0 <= k < |entries| && entries[k].isFile
    ensures |DataFiles(entries, formatMb)| == Count(entries, IsRegular) > 0
  {
    DataFilesAreRegularFiles(entries, formatMb);
    CountFilter(entries, IsRegular);
    var k :| 0 <= k < |entries| && entries[k].isFile;
    FilterMembership(entries, IsRegular, entries[k]);
  }

  lemma FileRowsOneLineEach(entries: seq<Entry>, formatMb: nat -> string)
    requires forall e :: e in entries ==> '\n' !in e.name && '\n' !in formatMb(e.size)
    ensures forall j :: 0 <= j < |DataFiles(entries, formatMb)| ==>
              Count(FileRow(DataFiles(entries, formatMb)[j]), IsNewline) == 1
  {
    var files := DataFiles(entries, formatMb);
    var regular := Filter(entries, IsRegular);
    DataFilesAreRegularFiles(entries, formatMb);
    forall j | 0 <= j < |files| ensures Count(FileRow(files[j]), IsNewline) == 1 {
      FilterMembership(entries, IsRegular, regular[j]);
      SuffixOneLine(regular[j].name);
      FileRowOneLine(files[j]);
    }
  }

  lemma FileRowOneLine(f: FileInfo)
    requires '\n' !in f.name && '\n' !in f.sizeMb && '\n' !in f.extension
    ensures Count(FileRow(f), IsNewline) == 1
  {
    var body := "| " + f.name + " | " + f.sizeMb + " | " + f.extension + " |";
    OneLine(body);
    assert FileRow(f) == body + "\n";
  }

  /** A suffix of a name is part of it. */
  lemma SuffixOneLine(name: string)
    requires '\n' !in name
    ensures '\n' !in PathSuffix(name)
  {
    var x := PathSuffix(name);
    if x != "" {
      assert x == name[|name| - |x|..];
      forall i | 0 <= i < |x| ensures x[i] != '\n' {
        assert x[i] == name[|name| - |x| + i];
      }
    }
  }

  lemma DataFilesHeaderLines()
    ensures Count(DataFilesHeader, IsNewline) == 4
  {
    TitleAndTwoRows(DataFilesTitle, DataFilesColumns, DataFilesRule);
  }

  lemma ImagesHeaderLines()
    ensures Count(ImagesHeader, IsNewline) == 4
  {
    TitleAndTwoRows(ImagesTitle, ImagesColumns, ImagesRule);
  }

  /** A title, a blank line and two table rows make four lines. */
  lemma TitleAndTwoRows(a: string, b: string, c: string)
    requires '\n' !in a && '\n' !in b && '\n' !in c
    ensures Count(a + "\n\n" + (b + "\n") + (c + "\n"), IsNewline) == 4
  {
    CountNone(a, IsNewline);
    CountAppend(a, "\n\n", IsNewline);
    assert "\n\n"[..1] == "\n" && "\n"[..0] == [];
    OneLine(b);
    OneLine(c);
    CountAppend(a + "\n\n", b + "\n", IsNewline);
    CountAppend(a + "\n\n" + (b + "\n"), c + "\n", IsNewline);
  }

  // ---------------------------------------------------------------------
  // list_generated_images

  /** One element of `images`; `sizeKb` is `str(round(size / 1024, 1))`,
      which the caller's `formatKb` computes. */
  datatype ImageInfo = ImageInfo(name: string, sizeBytes: nat, sizeKb: string, created: real)

  /** `glob("*.png")` followed by `is_file()`. */
  predicate IsPngFile(e: Entry)
  {
    e.isFile && EndsWith(e.name, ".png")
  }

  function ImageInfoOf(e: Entry, formatKb: nat -> string): ImageInfo
  {
    ImageInfo(e.name, e.size, formatKb(e.size), e.mtime)
  }

  function Created(img: ImageInfo): real
  {
    img.created
  }

  /** The `images` list after the `append` loop over `entries`. */
  function Images(entries: seq<Entry>, formatKb: nat -> string): seq<ImageInfo>
  {
    if entries == [] then []
    else
      var n := |entries| - 1;
      Images(entries[..n], formatKb) + (if IsPngFile(entries[n]) then [ImageInfoOf(entries[n], formatKb)] else [])
  }

  /** `images` describes exactly the PNG regular files, in enumeration order. */
  lemma {:induction false} ImagesArePngFiles(entries: seq<Entry>, formatKb: nat -> string)
    ensures |Images(entries, formatKb)| == |Filter(entries, IsPngFile)|
    ensures forall k :: 0 <= k < |Images(entries, formatKb)| ==>
              Images(entries, formatKb)[k] == ImageInfoOf(Filter(entries, IsPngFile)[k], formatKb)
  {
    if entries != [] {
      var n := |entries| - 1;
      ImagesArePngFiles(entries[..n], formatKb);
    }
  }

  /** `images.sort(key=lambda x: x['created'], reverse=True)`: newest first,
      images with equal times in enumeration order (Python's sort is stable,
      also when reversed). */
  function Newest(images: seq<ImageInfo>): seq<ImageInfo>
  {
    SortDesc(images, Created)
  }

  /** The sorted list holds the same images, newest first, and images
      created at the same time keep their enumeration order. */
  lemma NewestIsSorted(images: seq<ImageInfo>, t: real)
    ensures multiset(Newest(images)) == multiset(images)
    ensures NonIncreasing(Newest(images), Created)
    ensures Filter(Newest(images), KeyIs(Created, t)) == Filter(images, KeyIs(Created, t))
  {
    SortDescPermutes(images, Created);
    SortDescOrdered(images, Created);
    SortDescStable(images, Created, t);
  }

  /** A table row; `formatTime` is `strftime('%Y-%m-%d %H:%M')` of the local
      time of an `st_mtime`. */
  function ImageRow(img: ImageInfo, formatTime: real -> string): string
  {
    "| " + img.name + " | " + img.sizeKb + " | " + formatTime(img.created) + " |\n"
  }

  function ImageRender(formatTime: real -> string): ImageInfo -> string
  {
    img => ImageRow(img, formatTime)
  }

  const ImagesTitle: string := "Generated Visualization Images:"
  const ImagesColumns: string := "| Filename | Size (KB) | Created |"
  const ImagesRule: string := "|----------|-----------|--------|"

  /** The title, a blank line and the table's two heading rows. */
  const ImagesHeader: string :=
    ImagesTitle + "\n\n" + (ImagesColumns + "\n") + (ImagesRule + "\n")

  const NoImages: string := "No generated images" + " found in the output directory."

  function MissingOutputDir(outputDir: string): string
  {
    ExplicitError("Output directory '" + outputDir + "' does not exist.")
  }

  /** The string `list_generated_images` returns. */
  function ImagesReport(outputDir: string, listing: Option<seq<Entry>>, formatKb: nat -> string,
                        formatTime: real -> string): string
  {
    match listing
    case None => MissingOutputDir(outputDir)
    case Some(entries) =>
      var images := Images(entries, formatKb);
      if images == [] then NoImages
      else ImagesHeader + ConcatMap(Newest(images), ImageRender(formatTime))
  }

  /** The tool as the source runs it: collect the PNG files, sort the list
      newest first, then append one table row for each. */
  method ListGeneratedImages(outputDir: string, listing: Option<seq<Entry>>, formatKb: nat -> string,
                             formatTime: real -> string)
    returns (result: string)
    ensures result == ImagesReport(outputDir, listing, formatKb, formatTime)
  {
    if listing.None? {
      return MissingOutputDir(outputDir);
    }
    var entries := listing.value;
    var images: seq<ImageInfo> := [];
    for i := 0 to |entries|
      invariant images == Images(entries[..i], formatKb)
    {
      assert entries[..i + 1][..i] == entries[..i];
      if IsPngFile(entries[i]) {
        images := images + [ImageInfoOf(entries[i], formatKb)];
      }
    }
    assert entries[..|entries|] == entries;
    if images == [] {
      return NoImages;
    }
    images := Newest(images);
    var header := "Generated Visualization Images:\n\n";
    header := header + "| Filename | Size (KB) | Created |\n";
    header := header + "|----------|-----------|--------|\n";
    result := AppendRows(header, images, ImageRender(formatTime));
  }

  /** The three outcomes: a missing directory, no PNG file, or a table
      with a row for every PNG regular file, one line each. */
  lemma ImagesReportCases(outputDir: string, listing: Option<seq<Entry>>, formatKb: nat -> string,
                          formatTime: real -> string)
    ensures listing.None? ==> StartsWith(ImagesReport(outputDir, listing, formatKb, formatTime), "Error:")
    ensures listing.Some? ==>
              (ImagesReport(outputDir, listing, formatKb, formatTime) == NoImages
               <==> forall k :: 0 <= k < |listing.value| ==> !IsPngFile(listing.value[k]))
    ensures listing.Some? && (exists k :: 0 <= k < |listing.value| && IsPngFile(listing.value[k])) ==>
              forall k :: 0 <= k < |listing.value| && IsPngFile(listing.value[k]) ==>
                Occurs(ImageRow(ImageInfoOf(listing.value[k], formatKb), formatTime),
                       ImagesReport(outputDir, listing, formatKb, formatTime))
  {
    ImagesReplyProtocol(outputDir, listing, formatKb, formatTime);
    match listing
    case None =>
    case Some(entries) =>
      var images := Images(entries, formatKb);
      ImagesArePngFiles(entries, formatKb);
      var report := ImagesReport(outputDir, listing, formatKb, formatTime);
      if images == [] {
        forall k | 0 <= k < |entries| ensures !IsPngFile(entries[k]) {
          if IsPngFile(entries[k]) {
            FilterMembership(entries, IsPngFile, entries[k]);
          }
        }
      } else {
        assert report[0] == 'G';
        FilterPositions(entries, IsPngFile);
        forall k | 0 <= k < |entries| && IsPngFile(entries[k])
          ensures Occurs(ImageRow(ImageInfoOf(entries[k], formatKb), formatTime), report)
        {
          PngFileShown(entries, formatKb, formatTime, k);
          OccursAfter(ImageRow(ImageInfoOf(entries[k], formatKb), formatTime),
                      ConcatMap(Newest(images), ImageRender(formatTime)), ImagesHeader);
        }
      }
  }

  /** Callers tell failure by the prefix: the report starts with `Error`,
      and then with `Error:`, exactly when the output directory is
      missing; a directory without images is not a failure. */
  lemma ImagesReplyProtocol(outputDir: string, listing: Option<seq<Entry>>, formatKb: nat -> string,
                            formatTime: real -> string)
    ensures StartsWith(ImagesReport(outputDir, listing, formatKb, formatTime), "Error") <==> listing.None?
    ensures StartsWith(ImagesReport(outputDir, listing, formatKb, formatTime), "Error:") <==> listing.None?
  {
    var report := ImagesReport(outputDir, listing, formatKb, formatTime);
    match listing
    case None =>
      ErrorPrefixes("Output directory '" + outputDir + "' does not exist.", "listing generated images");
    case Some(entries) =>
      if Images(entries, formatKb) == [] {
        assert report == NoImages;
        assert NoImages[0] == 'N';
      } else {
        assert report[0] == 'G';
      }
      DiffersAtFirst(report, "Error");
      DiffersAtFirst(report, "Error:");
  }

  /** Every PNG regular file has its row among the sorted rows. */
  lemma PngFileShown(entries: seq<Entry>, formatKb: nat -> string, formatTime: real -> string, k: nat)
    requires k < |entries| && IsPngFile(entries[k])
    ensures Occurs(ImageRow(ImageInfoOf(entries[k], formatKb), formatTime),
                   ConcatMap(Newest(Images(entries, formatKb)), ImageRender(formatTime)))
  {
    var images := Images(entries, formatKb);
    ImagesArePngFiles(entries, formatKb);
    FilterPositions(entries, IsPngFile);
    var shown := Newest(images);
    var j :| 0 <= j < |Positions(entries, IsPngFile)| && Positions(entries, IsPngFile)[j] == k;
    var img := images[j];
    assert img == ImageInfoOf(entries[k], formatKb);
    assert img in multiset(shown) by {
      NewestIsSorted(images, 0.0);
      assert img in multiset(images);
    }
    var i :| 0 <= i < |shown| && shown[i] == img;
    ConcatMapOccurs(shown, ImageRender(formatTime), i);
  }

  /** The table has one line per PNG regular file below its four header
      lines, when no name and no formatted field holds a line break. */
  lemma ImagesReportLines(outputDir: string, entries: seq<Entry>, formatKb: nat -> string,
                          formatTime: real -> string)
    requires forall e :: e in entries ==> '\n' !in e.name && '\n' !in formatKb(e.size) && '\n' !in formatTime(e.mtime)
    requires exists k :: 0 <= k < |entries| && IsPngFile(entries[k])
    ensures Count(ImagesReport(outputDir, Some(entries), formatKb, formatTime), IsNewline)
            == 4 + Count(entries, IsPngFile)
  {
    var rows := ConcatMap(Newest(Images(entries, formatKb)), ImageRender(formatTime));
    ImageRowLines(entries, formatKb, formatTime);
    ImagesHeaderLines();
    CountAppend(ImagesHeader, rows, IsNewline);
  }

  /** Below the header, one line per PNG regular file. */
  lemma ImageRowLines(entries: seq<Entry>, formatKb: nat -> string, formatTime: real -> string)
    requires forall e :: e in entries ==> '\n' !in e.name && '\n' !in formatKb(e.size) && '\n' !in formatTime(e.mtime)
    requires exists k :: 0 <= k < |entries| && IsPngFile(entries[k])
    ensures Images(entries, formatKb) != []
    ensures Count(ConcatMap(Newest(Images(entries, formatKb)), ImageRender(formatTime)), IsNewline)
            == Count(entries, IsPngFile)
  {
    var images := Images(entries, formatKb);
    PngFilesListed(entries, formatKb);
    ImageRowsOneLineEach(entries, formatKb, formatTime);
    NewestIsSorted(images, 0.0);
    ConcatMapLines(Newest(images), ImageRender(formatTime));
  }

  /** Some PNG file means a non-empty `images` list, one per file. */
  lemma PngFilesListed(entries: seq<Entry>, formatKb: nat -> string)
    requires exists k :: 0 <= k < |entries| && IsPngFile(entries[k])
    ensures |Images(entries, formatKb)| == Count(entries, IsPngFile) > 0
  {
    ImagesArePngFiles(entries, formatKb);
    CountFilter(entries, IsPngFile);
    var k :| 0 <= k < |entries| && IsPngFile(entries[k]);
    FilterMembership(entries, IsPngFile, entries[k]);
  }

  lemma ImageRowsOneLineEach(entries: seq<Entry>, formatKb: nat -> string, formatTime: real -> string)
    requires forall e :: e in entries ==> '\n' !in e.name && '\n' !in formatKb(e.size) && '\n' !in formatTime(e.mtime)
    ensures forall j :: 0 <= j < |Newest(Images(entries, formatKb))| ==>
              Count(ImageRender(formatTime)(Newest(Images(entries, formatKb))[j]), IsNewline) == 1
  {
    var images := Images(entries, formatKb);
    var shown := Newest(images);
    NewestIsSorted(images, 0.0);
    forall j | 0 <= j < |shown| ensures Count(ImageRender(formatTime)(shown[j]), IsNewline) == 1 {
      assert shown[j] in multiset(shown);
      ImageNamesFromEntries(entries, formatKb, shown[j]);
      ImageRowOneLine(shown[j], formatTime);
    }
  }

  /** Every collected image is named after a directory entry. */
  lemma ImageNamesFromEntries(entries: seq<Entry>, formatKb: nat -> string, img: ImageInfo)
    requires img in Images(entries, formatKb)
    ensures exists e :: e in entries && IsPngFile(e) && e.name == img.name && e.size == img.sizeBytes
                        && formatKb(e.size) == img.sizeKb && e.mtime == img.created
  {
    ImagesArePngFiles(entries, formatKb);
    var pngs := Filter(entries, IsPngFile);
    var i :| 0 <= i < |Images(entries, formatKb)| && Images(entries, formatKb)[i] == img;
    FilterMembership(entries, IsPngFile, pngs[i]);
    assert pngs[i] in entries;
  }

  lemma ImageRowOneLine(img: ImageInfo, formatTime: real -> string)
    requires '\n' !in img.name && '\n' !in img.sizeKb && '\n' !in formatTime(img.created)
    ensures Count(ImageRow(img, formatTime), IsNewline) == 1
  {
    var body := "| " + img.name + " | " + img.sizeKb + " | " + formatTime(img.created) + " |";
    OneLine(body);
    assert ImageRow(img, formatTime) == body + "\n";
  }
}
