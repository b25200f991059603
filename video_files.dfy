/**
 * The directory listing both the mapper and the uploader start from: the
 * regular files whose extension (compared in lower case) is one of the
 * video extensions, oldest creation time first. `iterdir` and `stat` are
 * inputs: the listing is a sequence of entries in directory order.
 */
module VideoFiles {
  import Strings
  import Sorting

  const VideoExtensions: seq<string> := [".mp4", ".avi", ".mov", ".mkv", ".flv", ".wmv"]

  /** A directory entry: its name, whether it is a regular file, its creation time. */
  datatype DirEntry = DirEntry(name: string, isFile: bool, ctime: int)

  /** `f.is_file() and f.suffix.lower() in video_extensions`. */
  predicate IsVideoFile(e: DirEntry) {
    e.isFile && Strings.Lower(Strings.Suffix(e.name)) in VideoExtensions
  }

  /** The list comprehension that keeps the video files, in listing order. */
  function FilterVideos(entries: seq<DirEntry>): (r: seq<DirEntry>)
    ensures forall k :: 0 <= k < |r| ==> IsVideoFile(r[k])
    ensures forall e :: e in r <==> e in entries && IsVideoFile(e)
  {
    if entries == [] then []
    else (if IsVideoFile(entries[0]) then [entries[0]] else []) + FilterVideos(entries[1..])
  }

  /** The sort key `st_ctime`, as a comparison. */
  function ByCtime(): (DirEntry, DirEntry) -> bool {
    (a: DirEntry, b: DirEntry) => a.ctime <= b.ctime
  }

  /** `video_files.sort(key=lambda f: f.stat().st_ctime)` after the filter. */
  function SortedVideoFiles(entries: seq<DirEntry>): seq<DirEntry> {
    Sorting.Sort(FilterVideos(entries), ByCtime())
  }

  /** Exactly the video files, oldest first, entries with equal times in listing order. */
  lemma SortedVideoFilesSpec(entries: seq<DirEntry>, k: DirEntry)
    ensures var r := SortedVideoFiles(entries);
            && |r| == |FilterVideos(entries)|
            && (forall e :: e in r <==> e in entries && IsVideoFile(e))
            && Sorting.SortedBy(r, ByCtime())
            && Sorting.KeyClass(r, k, ByCtime()) == Sorting.KeyClass(FilterVideos(entries), k, ByCtime())
  {
    Sorting.SortSameElements(FilterVideos(entries), ByCtime());
    Sorting.SortSorted(FilterVideos(entries), ByCtime());
    Sorting.SortStable(FilterVideos(entries), k, ByCtime());
  }
}
