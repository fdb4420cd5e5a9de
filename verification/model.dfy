/**
 * The data shapes shared by both scanners, after src/types/filesystem.ts.
 * A node is either a directory or a file (a tagged variant instead of one
 * record with optional fields), and a duplicate group carries the
 * `fullFilenames` list the scanners always build.
 */
module Model {

  /** One byte of file content (a `Uint8Array` element). */
  type Byte = x: int | 0 <= x < 256

  /** What reading a file's bytes produces: its contents, or a read failure. */
  datatype Content = Readable(bytes: seq<Byte>) | Unreadable

  /**
   * One entry of the result tree. `hash` is the fingerprint (possibly "" when
   * the bytes could not be read); `isDuplicate` is set on every member of a
   * duplicate group except the first one seen.
   */
  datatype Node =
    | Dir(name: string, path: string, children: seq<Node>)
    | File(name: string, path: string, size: nat, fileType: string, hash: string, isDuplicate: bool)

  /** All files sharing one fingerprint, in discovery order. */
  datatype DuplicateGroup = DuplicateGroup(
    hash: string,
    fileName: string,
    size: nat,
    paths: seq<string>,
    fullFilenames: seq<string>)

  /** The summary statistics of one scan. */
  datatype FileStats = FileStats(
    totalSize: nat,
    totalFiles: nat,
    totalDirs: nat,
    duplicateFiles: nat,
    fileTypes: set<string>,
    avgDepth: real,
    maxDepth: nat)

  /**
   * One advice card. Each kind keeps the figures its description quotes;
   * the rendered text (which formats byte counts) is not modelled.
   */
  datatype Recommendation =
    | CleanUpDuplicates(duplicateFiles: nat, wastedBytes: int)
    | OrganizeByType(typeCount: nat)
    | SimplifyStructure(maxDepth: nat)
    | BreakDownLarge(totalFiles: nat)
  {
    function Title(): string
    {
      match this
      case CleanUpDuplicates(_, _) => "Clean up duplicate files"
      case OrganizeByType(_) => "Organize by file types"
      case SimplifyStructure(_) => "Simplify folder structure"
      case BreakDownLarge(_) => "Break down large directories"
    }
  }

  datatype AnalysisResult = AnalysisResult(
    rootNode: Node,
    stats: FileStats,
    duplicates: seq<DuplicateGroup>,
    recommendations: seq<Recommendation>)

  /** `Math.min` and `Math.max` on naturals, as both scanners and the label shortener use them. */
  function Min(a: nat, b: nat): nat { if a <= b then a else b }

  function Max(a: nat, b: nat): nat { if a <= b then b else a }
}
