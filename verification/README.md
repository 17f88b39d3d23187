# Shared-dictionary paths and string helpers of CarbonData

A verified Dafny model of two small, pure utilities of the CarbonData
columnar store.

- `SharedDictionaryPath` (`shared_dictionary_path.dfy`) models
  `CarbonSharedDictionaryPath`. It builds the file paths of the three
  shared-dictionary artifacts of a column: the dictionary (`.dict`), its
  metadata (`.dictmeta`) and its sort index (`.sortindex`). Every path is
  `storePath SEP databaseName SEP "SharedDictionary" SEP columnId EXT`. The
  file separator is the parameter `sep`. `ArtifactKind` names the three
  artifacts; the three Java methods are kept as `DictionaryFilePath`,
  `DictionaryMetaFilePath` and `SortIndexFilePath` over one `ArtifactPath`.
  Their partner is `ParseArtifact`, which reads a path inside a database's
  shared-dictionary directory back into its column and kind. The round trip
  holds in both directions. From it follow injectivity and the pairwise
  distinctness of a column's three paths.
- `Strings` (`strings.dfy`) models `Strings.mkString` and the unit choice of
  `Strings.formatSize`.
  - `MkString` is the Java `StringBuilder` loop over an array. Its loop
    invariant ties it to the recursive specification `Join`.
    `JoinLayout` gives an independent, position-by-position description of
    the joined string.
  - `FormatSize` takes the byte count as a `real`. It returns `NotAvailable`
    ("NA") or `Scaled(value, unit)`. The thresholds are built the way the
    Java code builds them: Java `long` shifts, modelled as `bv64 <<`. Its partner
    is `FormatByTable`, an ascending table of units and lower bounds, and
    `FormatSizeMatchesTable` proves the two agree on every real. The scaled
    value times the unit's divisor gives back the input.

Both are pure functions, so the same inputs always give the same result.
This needs no lemma in Dafny.

## Model

| member | source | states |
|---|---|---|
| SharedDictionaryPath.Extension | core/src/main/java/org/carbondata/core/carbon/path/CarbonSharedDictionaryPath.java:29-31 | Dictionary, DictionaryMeta and SortIndex map to ".dict", ".dictmeta" and ".sortindex", each in both directions, so the extension alone names the kind; every extension starts with "." |
| SharedDictionaryPath.SharedDictionaryDir | core/src/main/java/org/carbondata/core/carbon/path/CarbonSharedDictionaryPath.java:67-69 | the directory starts with the store path, then has the separator and the database name at their exact positions, and ends with separator + "SharedDictionary"; its length is len(store) + len(database) + 2·len(sep) + 16 |
| SharedDictionaryPath.ArtifactPath | core/src/main/java/org/carbondata/core/carbon/path/CarbonSharedDictionaryPath.java:39-65 | every artifact path starts with the store path and with the shared-dictionary directory followed by the separator, ends with columnId + extension, and has length len(store) + len(database) + len(columnId) + 3·len(sep) + 16 + len(ext) |
| SharedDictionaryPath.DictionaryFilePath | core/src/main/java/org/carbondata/core/carbon/path/CarbonSharedDictionaryPath.java:39-42 | the dictionary path is the flat on-disk name store SEP database SEP "SharedDictionary" SEP columnId ".dict" |
| SharedDictionaryPath.DictionaryMetaFilePath | core/src/main/java/org/carbondata/core/carbon/path/CarbonSharedDictionaryPath.java:50-54 | the metadata path is the flat on-disk name ending in columnId ".dictmeta" |
| SharedDictionaryPath.SortIndexFilePath | core/src/main/java/org/carbondata/core/carbon/path/CarbonSharedDictionaryPath.java:62-65 | the sort-index path is the flat on-disk name ending in columnId ".sortindex" |
| SharedDictionaryPath.ExtensionsSuffixFree | core/src/main/java/org/carbondata/core/carbon/path/CarbonSharedDictionaryPath.java:29-31 | one extension literal ends with another exactly when they are the same literal, so a file's extension is unambiguous |
| SharedDictionaryPath.ParseFileNameOf | core/src/main/java/org/carbondata/core/carbon/path/CarbonSharedDictionaryPath.java:29-31 | splitting a file name columnId + extension returns that column and that kind |
| SharedDictionaryPath.ParseArtifact | core/src/main/java/org/carbondata/core/carbon/path/CarbonSharedDictionaryPath.java:39-65 | whatever a path inside a directory reads back as, rebuilding it from the column and kind gives the same path |
| SharedDictionaryPath.ParseArtifactPath | core/src/main/java/org/carbondata/core/carbon/path/CarbonSharedDictionaryPath.java:39-65 | reading back any built artifact path recovers exactly the column and kind it was built from |
| SharedDictionaryPath.ArtifactPathInjective | core/src/main/java/org/carbondata/core/carbon/path/CarbonSharedDictionaryPath.java:39-65 | in one store and database, two artifact paths are equal if and only if they name the same column and the same kind |
| SharedDictionaryPath.ArtifactPathsOfColumn | core/src/main/java/org/carbondata/core/carbon/path/CarbonSharedDictionaryPath.java:40-64 | a column's three paths are one stem dir SEP columnId followed by ".dict", ".dictmeta" and ".sortindex", and they are pairwise distinct |
| SharedDictionaryPath.SegmentsAreNotEscaped | core/src/main/java/org/carbondata/core/carbon/path/CarbonSharedDictionaryPath.java:67-69 | segments are used verbatim: database "outer SEP inner" under a store gives the same path as database "inner" under store "store SEP outer" |
| SharedDictionaryPath.ExampleDictionaryPath | core/src/main/java/org/carbondata/core/carbon/path/CarbonSharedDictionaryPath.java:39-42 | store "/data", database "db1", column "col123" and separator "/" give "/data/db1/SharedDictionary/col123.dict" |
| Strings.Join | common/src/main/java/org/apache/carbondata/common/Strings.java:35-40 | joining nothing gives ""; joining n ≥ 1 elements gives a string of the total element length plus (n−1)·len(delimiter) |
| Strings.JoinAppend | common/src/main/java/org/apache/carbondata/common/Strings.java:35-40 | joining two non-empty runs one after the other equals joining each and putting exactly one delimiter between them |
| Strings.JoinLayout | common/src/main/java/org/apache/carbondata/common/Strings.java:35-40 | element k sits at offset (lengths of the earlier elements) + k·len(delimiter); a delimiter follows every element but the last; nothing follows the last |
| Strings.MkString | common/src/main/java/org/apache/carbondata/common/Strings.java:31-42 | the loop's result is the join of the array: "" for an empty array, the element itself for one element, the right length otherwise; the array is only read |
| Strings.ThresholdsArePowersOfTwo | common/src/main/java/org/apache/carbondata/common/Strings.java:50-53 | KB = 1024 and each `<< 10` gives 2^20, 2^30 and 2^40 without wrapping; all four are positive as signed longs and equal 1024^1..1024^4 |
| Strings.DivisorsAreThresholds | common/src/main/java/org/apache/carbondata/common/Strings.java:50-65 | the divisor of each unit is exactly the threshold the Java code compares against and divides by for that unit |
| Strings.FormatSize | common/src/main/java/org/apache/carbondata/common/Strings.java:49-67 | "NA" exactly for negative input; otherwise value × divisor(unit) = input; B keeps the raw value; every scaled unit has value ≥ 1; every unit except TB has value < 1024 |
| Strings.FormatSizeMatchesTable | common/src/main/java/org/apache/carbondata/common/Strings.java:56-66 | on every real input the branch ladder gives the same unit and value as the ascending table of lower bounds (highest unit whose lower bound is reached) |
| Strings.GuardsPartition | common/src/main/java/org/apache/carbondata/common/Strings.java:54-66 | the guard of the branch taken holds, and no other guard holds: every real input is handled by exactly one branch |
| Strings.BoundariesBelongToUpperUnit | common/src/main/java/org/apache/carbondata/common/Strings.java:54-65 | -1 gives NA; 0 and 1023 stay in bytes; 1024, 2^20, 2^30 and 2^40 give 1.0 KB, MB, GB and TB |
| Strings.FormatSizeMonotonic | common/src/main/java/org/apache/carbondata/common/Strings.java:56-66 | for non-negative sizes, a larger size never gets a smaller unit |

## Left out

- File separator: `File.separator` depends on the platform. It is the parameter `sep` here.
- Nulls: `Objects.requireNonNull` throwing, and Java's rendering of a null element or argument as the text "null", are not modelled. Dafny strings are never null.
- Filesystem: the Java code only computes names, so there is no existence check or file creation to model.
- FormatSize: does not model the rendered digits. `String.format("%.2f…")` and `"%s"` of a `float` are floating-point text conversion that depends on the default locale. The model returns the unit and the exact scaled value.
- FormatSize: the input is a `real`, not an IEEE-754 `float`. NaN fails every comparison and falls to the TB branch. ±Infinity are not modelled either, nor the rounding a caller incurs when it converts a `long` byte count to `float`. On every finite `float` input the model's unit and value equal the Java code's: the thresholds 2^10, 2^20, 2^30 and 2^40 are exact in `float`, and dividing by one of them gives a quotient of at least 1, so the division is exact.
- Rendering of the byte branch: the Java code prints a `float` with `%s`, so 1023 shows as "1023.0B", not "1023B". This is rendering and is left out with the digits. The model keeps the Java behaviour: the byte value is unscaled.
- String bounds and characters: Java strings and `StringBuilder` hold at most `Integer.MAX_VALUE` UTF-16 units, and `+` or `append` past that throws `OutOfMemoryError`. Dafny sequences are unbounded, so the length equalities of `Strings.Join`, `Strings.MkString` and `SharedDictionaryPath.ArtifactPath` keep holding where Java throws. A Dafny `char` is a Unicode scalar value, not a UTF-16 unit: lone surrogates cannot be represented, and lengths count code points rather than UTF-16 units.
