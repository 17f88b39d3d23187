/**
 Canonical file paths of the three shared-dictionary artifacts of a column
 (dictionary, dictionary metadata, sort index).

 Every path has the layout
   storePath SEP databaseName SEP "SharedDictionary" SEP columnId EXT
 where SEP is the platform file separator, passed here as the parameter
 `sep`, and EXT is the extension of the artifact kind.
 */
module SharedDictionaryPath {

  /** Directory, under a database, that groups all shared-dictionary artifacts. */
  const SharedDimDir: string := "SharedDictionary"

  const DictionaryExt: string := ".dict"
  const DictionaryMetaExt: string := ".dictmeta"
  const SortIndexExt: string := ".sortindex"

  /** The three artifacts stored for a column; each has its own extension. */
  datatype ArtifactKind = Dictionary | DictionaryMeta | SortIndex

  /** Result of reading a path back: which column and artifact it names, if any. */
  datatype Parsed = NotArtifact | Artifact(columnId: string, kind: ArtifactKind)

  predicate IsSuffix(p: string, s: string)
  {
    |p| <= |s| && s[|s| - |p|..] == p
  }

  /** The extension each builder appends after the column id. */
  function Extension(kind: ArtifactKind): (ext: string)
    ensures kind == Dictionary <==> ext == ".dict"
    ensures kind == DictionaryMeta <==> ext == ".dictmeta"
    ensures kind == SortIndex <==> ext == ".sortindex"
    ensures 5 <= |ext| && ext[0] == '.'
  {
    match kind
    case Dictionary => DictionaryExt
    case DictionaryMeta => DictionaryMetaExt
    case SortIndex => SortIndexExt
  }

  /** No extension ends with another one: the extension of a path is unambiguous. */
  lemma ExtensionsSuffixFree(k1: ArtifactKind, k2: ArtifactKind)
    ensures IsSuffix(Extension(k1), Extension(k2)) <==> k1 == k2
  {
  }

  /** The directory `storePath SEP databaseName SEP SharedDictionary`. */
  function SharedDictionaryDir(storePath: string, databaseName: string, sep: string): (dir: string)
    ensures |dir| == |storePath| + |databaseName| + 2 * |sep| + 16
    ensures storePath <= dir
    ensures IsSuffix(sep + SharedDimDir, dir)
    ensures dir[|storePath|..|storePath| + |sep|] == sep
    ensures dir[|storePath| + |sep|..|storePath| + |sep| + |databaseName|] == databaseName
  {
    storePath + sep + databaseName + sep + SharedDimDir
  }

  /** Path of the artifact `kind` of column `columnId`. */
  function ArtifactPath(storePath: string, databaseName: string, columnId: string,
                        kind: ArtifactKind, sep: string): (path: string)
    ensures |path| == |storePath| + |databaseName| + |columnId| + 3 * |sep| + 16 + |Extension(kind)|
    ensures storePath <= path
    ensures SharedDictionaryDir(storePath, databaseName, sep) + sep <= path
    ensures IsSuffix(columnId + Extension(kind), path)
  {
    SharedDictionaryDir(storePath, databaseName, sep) + sep + columnId + Extension(kind)
  }

  /** Path of the dictionary file of a column. */
  function DictionaryFilePath(storePath: string, databaseName: string, columnId: string,
                              sep: string): (path: string)
    ensures path == storePath + sep + databaseName + sep + "SharedDictionary" + sep + columnId + ".dict"
  {
    ArtifactPath(storePath, databaseName, columnId, Dictionary, sep)
  }

  /** Path of the dictionary metadata file of a column. */
  function DictionaryMetaFilePath(storePath: string, databaseName: string, columnId: string,
                                  sep: string): (path: string)
    ensures path == storePath + sep + databaseName + sep + "SharedDictionary" + sep + columnId + ".dictmeta"
  {
    ArtifactPath(storePath, databaseName, columnId, DictionaryMeta, sep)
  }

  /** Path of the sort index file of a column. */
  function SortIndexFilePath(storePath: string, databaseName: string, columnId: string,
                             sep: string): (path: string)
    ensures path == storePath + sep + databaseName + sep + "SharedDictionary" + sep + columnId + ".sortindex"
  {
    ArtifactPath(storePath, databaseName, columnId, SortIndex, sep)
  }

  /** Two suffixes of one string: the shorter one is a suffix of the longer one. */
  lemma SuffixOfSuffix(a: string, b: string, s: string)
    requires IsSuffix(a, s) && IsSuffix(b, s)
    ensures IsSuffix(a, b) || IsSuffix(b, a)
  {
    if |a| <= |b| {
      assert b[|b| - |a|..] == s[|s| - |a|..];
    } else {
      assert a[|a| - |b|..] == s[|s| - |b|..];
    }
  }

  /** Splits a file name `columnId EXT` into the column and the kind its extension names. */
  function ParseFileName(name: string): (p: Parsed)
    ensures p.Artifact? ==> name == p.columnId + Extension(p.kind)
  {
    if IsSuffix(DictionaryExt, name) then
      Artifact(name[..|name| - |DictionaryExt|], Dictionary)
    else if IsSuffix(DictionaryMetaExt, name) then
      Artifact(name[..|name| - |DictionaryMetaExt|], DictionaryMeta)
    else if IsSuffix(SortIndexExt, name) then
      Artifact(name[..|name| - |SortIndexExt|], SortIndex)
    else NotArtifact
  }

  /** Splitting a built file name returns what it was built from. */
  lemma ParseFileNameOf(columnId: string, kind: ArtifactKind)
    ensures ParseFileName(columnId + Extension(kind)) == Artifact(columnId, kind)
  {
    var name := columnId + Extension(kind);
    forall k: ArtifactKind | k != kind
      ensures !IsSuffix(Extension(k), name)
    {
      ExtensionsSuffixFree(k, kind);
      ExtensionsSuffixFree(kind, k);
      if IsSuffix(Extension(k), name) {
        SuffixOfSuffix(Extension(k), Extension(kind), name);
      }
    }
    assert name[|name| - |Extension(kind)|..] == Extension(kind);
    assert name[..|name| - |Extension(kind)|] == columnId;
  }

  /**
   Reads a path inside the shared-dictionary directory `dir` back into the
   column and artifact kind it names. Not an operation of the store itself:
   it is the inverse against which the path builders are checked.
   */
  function ParseArtifact(dir: string, sep: string, path: string): (p: Parsed)
    ensures p.Artifact? ==> path == dir + sep + p.columnId + Extension(p.kind)
  {
    var head := dir + sep;
    if head <= path then
      assert path == head + path[|head|..];
      ParseFileName(path[|head|..])
    else NotArtifact
  }

  /** Reading a built path back yields exactly the column and kind it was built from. */
  lemma ParseArtifactPath(storePath: string, databaseName: string, columnId: string,
                          kind: ArtifactKind, sep: string)
    ensures ParseArtifact(SharedDictionaryDir(storePath, databaseName, sep), sep,
                          ArtifactPath(storePath, databaseName, columnId, kind, sep))
            == Artifact(columnId, kind)
  {
    var head := SharedDictionaryDir(storePath, databaseName, sep) + sep;
    var name := columnId + Extension(kind);
    var path := ArtifactPath(storePath, databaseName, columnId, kind, sep);
    assert path == head + name;
    assert path[|head|..] == name;
    ParseFileNameOf(columnId, kind);
  }

  /** In one database, a path determines its column and its kind. */
  lemma ArtifactPathInjective(storePath: string, databaseName: string, sep: string,
                              c1: string, k1: ArtifactKind, c2: string, k2: ArtifactKind)
    ensures ArtifactPath(storePath, databaseName, c1, k1, sep) == ArtifactPath(storePath, databaseName, c2, k2, sep)
            <==> c1 == c2 && k1 == k2
  {
    ParseArtifactPath(storePath, databaseName, c1, k1, sep);
    ParseArtifactPath(storePath, databaseName, c2, k2, sep);
  }

  /**
   The three paths of a column share the stem `dir SEP columnId` and differ
   only in their extensions, and they are pairwise distinct.
   */
  lemma ArtifactPathsOfColumn(storePath: string, databaseName: string, columnId: string, sep: string)
    ensures var stem := SharedDictionaryDir(storePath, databaseName, sep) + sep + columnId;
      && DictionaryFilePath(storePath, databaseName, columnId, sep) == stem + DictionaryExt
      && DictionaryMetaFilePath(storePath, databaseName, columnId, sep) == stem + DictionaryMetaExt
      && SortIndexFilePath(storePath, databaseName, columnId, sep) == stem + SortIndexExt
    ensures DictionaryFilePath(storePath, databaseName, columnId, sep)
            != DictionaryMetaFilePath(storePath, databaseName, columnId, sep)
    ensures DictionaryFilePath(storePath, databaseName, columnId, sep)
            != SortIndexFilePath(storePath, databaseName, columnId, sep)
    ensures DictionaryMetaFilePath(storePath, databaseName, columnId, sep)
            != SortIndexFilePath(storePath, databaseName, columnId, sep)
  {
    ArtifactPathInjective(storePath, databaseName, sep, columnId, Dictionary, columnId, DictionaryMeta);
    ArtifactPathInjective(storePath, databaseName, sep, columnId, Dictionary, columnId, SortIndex);
    ArtifactPathInjective(storePath, databaseName, sep, columnId, DictionaryMeta, columnId, SortIndex);
  }

  /**
   Segments are used verbatim, so a separator inside a database name makes
   two different (store, database) pairs name the same file.
   */
  lemma SegmentsAreNotEscaped(storePath: string, outer: string, inner: string, columnId: string,
                              kind: ArtifactKind, sep: string)
    ensures ArtifactPath(storePath, outer + sep + inner, columnId, kind, sep)
            == ArtifactPath(storePath + sep + outer, inner, columnId, kind, sep)
  {
    assert storePath + sep + (outer + sep + inner) == storePath + sep + outer + sep + inner;
    assert SharedDictionaryDir(storePath, outer + sep + inner, sep)
        == SharedDictionaryDir(storePath + sep + outer, inner, sep);
  }

  /** The dictionary file of column "col123" of database "db1" in store "/data". */
  lemma ExampleDictionaryPath()
    ensures DictionaryFilePath("/data", "db1", "col123", "/") == "/data/db1/SharedDictionary/col123.dict"
  {
    assert "/data" + "/" + "db1" + "/" + "SharedDictionary" + "/" + "col123" + ".dict"
        == "/data/db1/SharedDictionary/col123.dict";
  }
}
