/**
 * `_validate_path`: the shape check a Firestore path must pass before a
 * document or collection reference is made from it.
 */
module FirestorePaths {
  import opened Outcomes
  import opened Strings

  /** The ValueError `_validate_path` raises, by reason. */
  datatype PathError =
    | EmptyPath
    | EmptySegment
    | OddDocumentPath(segments: nat)
    | EvenCollectionPath(segments: nat)

  /**
   * No segment of `path.split('/')` is empty, stated on the characters:
   * the path is non-empty, neither starts nor ends with '/', and holds no "//".
   */
  ghost predicate SegmentsNonEmpty(path: string)
  {
    && path != []
    && path[0] != '/' && path[|path| - 1] != '/'
    && forall i :: !DoubleSepAt(path, '/', i)
  }

  /**
   * Checks, in order, that the path is non-empty, that no segment is empty,
   * and then the segment count: even for "document", odd for "collection";
   * any other `pathType` skips the count check.
   */
  function ValidatePath(path: string, pathType: string): (r: Outcome<PathError>)
    ensures r == Fail(EmptyPath) <==> path == []
    ensures r == Fail(EmptySegment) <==> path != [] && !SegmentsNonEmpty(path)
    ensures r.Pass? <==>
              SegmentsNonEmpty(path)
              && (pathType == "document" ==> Count(path, '/') % 2 == 1)
              && (pathType == "collection" ==> Count(path, '/') % 2 == 0)
    ensures r.Fail? && r.error.OddDocumentPath? ==> r.error.segments == Count(path, '/') + 1
    ensures r.Fail? && r.error.EvenCollectionPath? ==> r.error.segments == Count(path, '/') + 1
  {
    if path == [] then Fail(EmptyPath)
    else
      var segments := Split(path, '/');
      var anyEmpty := exists j :: 0 <= j < |segments| && segments[j] == [];
      assert anyEmpty <==> !SegmentsNonEmpty(path) by {
        EmptyPieceIff(path, '/');
      }
      assert |segments| == Count(path, '/') + 1;
      if anyEmpty then Fail(EmptySegment)
      else if pathType == "document" && |segments| % 2 != 0 then Fail(OddDocumentPath(|segments|))
      else if pathType == "collection" && |segments| % 2 != 1 then Fail(EvenCollectionPath(|segments|))
      else Pass
  }

  /**
   * A path made of non-empty, '/'-free segments joined by '/' passes the
   * empty checks, and the outcome depends only on the number of segments.
   */
  lemma ValidateBySegments(path: string, pathType: string, segments: seq<string>)
    requires |segments| >= 1
    requires forall i :: 0 <= i < |segments| ==> segments[i] != [] && '/' !in segments[i]
    requires path == Join(segments, '/')
    ensures path != [] && Split(path, '/') == segments
    ensures ValidatePath(path, pathType)
            == if pathType == "document" && |segments| % 2 != 0 then Fail(OddDocumentPath(|segments|))
               else if pathType == "collection" && |segments| % 2 != 1 then Fail(EvenCollectionPath(|segments|))
               else Pass
  {
    SplitJoin(segments, '/');
  }

  /** A two-segment document path is accepted. */
  lemma DocumentPathExample()
    ensures ValidatePath("users/alovelace", "document") == Pass
  {
    assert "users/alovelace" == Join(["users", "alovelace"], '/');
    ValidateBySegments("users/alovelace", "document", ["users", "alovelace"]);
  }

  /** A four-segment document path (a document in a subcollection) is accepted. */
  lemma NestedDocumentPathExample()
    ensures ValidatePath("users/uid/posts/post123", "document") == Pass
  {
    assert "users/uid/posts/post123" == Join(["users", "uid", "posts", "post123"], '/');
    ValidateBySegments("users/uid/posts/post123", "document", ["users", "uid", "posts", "post123"]);
  }

  /** One- and three-segment collection paths are accepted. */
  lemma CollectionPathExamples()
    ensures ValidatePath("users", "collection") == Pass
    ensures ValidatePath("users/uid/posts", "collection") == Pass
  {
    ValidateBySegments("users", "collection", ["users"]);
    assert "users/uid/posts" == Join(["users", "uid", "posts"], '/');
    ValidateBySegments("users/uid/posts", "collection", ["users", "uid", "posts"]);
  }

  /** A one-segment path is not a document path. */
  lemma CollectionPathIsNoDocument()
    ensures ValidatePath("users", "document") == Fail(OddDocumentPath(1))
  {
    ValidateBySegments("users", "document", ["users"]);
  }

  /** A two-segment path is not a collection path. */
  lemma DocumentPathIsNoCollection()
    ensures ValidatePath("users/alovelace", "collection") == Fail(EvenCollectionPath(2))
  {
    assert "users/alovelace" == Join(["users", "alovelace"], '/');
    ValidateBySegments("users/alovelace", "collection", ["users", "alovelace"]);
  }

  /** A leading or trailing '/', or "//", makes an empty segment whatever the path type. */
  lemma EmptySegmentExamples(pathType: string)
    ensures ValidatePath("/users", pathType) == Fail(EmptySegment)
    ensures ValidatePath("users/", pathType) == Fail(EmptySegment)
    ensures ValidatePath("users//posts", pathType) == Fail(EmptySegment)
    ensures ValidatePath("", pathType) == Fail(EmptyPath)
  {
    assert DoubleSepAt("users//posts", '/', 5);
  }
}
