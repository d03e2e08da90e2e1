/** src/shared/utils/query.util.ts: `validateSort` and `sanitizeQuery`. */
module Query {
  import opened Text
  import PaginationConstants
  import Validation

  /** `{ isValid, sortParams: [field, direction] }`, the direction 1 (ascending) or -1 (descending). */
  datatype SortResult = SortResult(isValid: bool, field: string, direction: int)

  /**
   * `validateSort`: the field is the text before the first ':'; an unknown
   * field gives the fallback `createdAt` descending, a known one ascends
   * only when the order piece is exactly "asc".
   */
  function ValidateSort(sort: string, allowedFields: seq<string>): (r: SortResult)
    ensures r.direction == 1 || r.direction == -1
    ensures var field := sort[..IndexOf(sort, ':')];
            (r.isValid <==> field in allowedFields) && (r.isValid ==> r.field == field)
    ensures !r.isValid ==> r == SortResult(false, "createdAt", -1)
  {
    SplitHead(sort, ':');
    var parts := Split(sort, ':');
    if parts[0] !in allowedFields then SortResult(false, "createdAt", -1)
    else SortResult(true, parts[0], if |parts| >= 2 && parts[1] == "asc" then 1 else -1)
  }

  /** `validateSort` on `field:order`, with or without more ':'-separated text after it. */
  lemma ValidateSortOutcome(field: string, order: string, rest: string, allowedFields: seq<string>)
    requires ':' !in field && ':' !in order
    ensures var expected :=
              if field !in allowedFields then SortResult(false, "createdAt", -1)
              else SortResult(true, field, if order == "asc" then 1 else -1);
            && ValidateSort(field + ":" + order, allowedFields) == expected
            && ValidateSort(field + ":" + order + ":" + rest, allowedFields) == expected
  {
    Validation.SortPieces(field, order, rest);
  }

  /** A bare field with no order piece is always descending. */
  lemma ValidateSortWithoutOrder(field: string, allowedFields: seq<string>)
    requires ':' !in field
    ensures ValidateSort(field, allowedFields) ==
            if field in allowedFields then SortResult(true, field, -1) else SortResult(false, "createdAt", -1)
  {
    SplitNone(field, ':');
  }

  /**
   * The validator accepts "name:ASC", since it lower-cases the order, but
   * `validateSort` then sorts descending, since it compares the order with
   * "asc" exactly.
   */
  lemma UpperCaseAscSortsDescending()
    ensures Validation.SortOk("name:ASC")
    ensures ValidateSort("name:ASC", PaginationConstants.ALLOWED_SORT_FIELDS) == SortResult(true, "name", -1)
  {
    var f, o := "name", "ASC";
    assert f + ":" + o == "name:ASC";
    Validation.SortAccepted(f, o, "");
    assert ToLower(o) == "asc";
    ValidateSortOutcome(f, o, "", PaginationConstants.ALLOWED_SORT_FIELDS);
  }

  /** `validateSort` with the order compared after lower-casing, as the validator compares it. */
  function ValidateSortIgnoringCase(sort: string, allowedFields: seq<string>): SortResult {
    var parts := Split(sort, ':');
    if parts[0] !in allowedFields then SortResult(false, "createdAt", -1)
    else SortResult(true, parts[0], if |parts| >= 2 && ToLower(parts[1]) == "asc" then 1 else -1)
  }

  /**
   * Every sort the validator accepts is valid for the case-insensitive
   * `validateSort`, ascending exactly when its order reads "asc" in any case
   * and descending exactly when it reads "desc".
   */
  lemma ValidatedSortDirection(sort: string)
    requires Validation.SortOk(sort)
    ensures var r := ValidateSortIgnoringCase(sort, PaginationConstants.ALLOWED_SORT_FIELDS);
            var parts := Split(sort, ':');
            && r.isValid && r.field == parts[0]
            && (r.direction == 1 <==> ToLower(parts[1]) == "asc")
            && (r.direction == -1 <==> ToLower(parts[1]) == "desc")
  {
  }

  /** The characters of the regular expression class `[\${}()]`. */
  predicate Forbidden(c: char) {
    c == '$' || c == '{' || c == '}' || c == '(' || c == ')'
  }

  /** `replace(/[\${}()]/g, '')`: the input with every forbidden character dropped, the rest in order. */
  function RemoveForbidden(s: string): (r: string)
    ensures |r| <= |s|
    ensures forall c :: c in r <==> c in s && !Forbidden(c)
    ensures (forall i :: 0 <= i < |s| ==> !Forbidden(s[i])) ==> r == s
  {
    if |s| == 0 then ""
    else if Forbidden(s[0]) then RemoveForbidden(s[1..])
    else [s[0]] + RemoveForbidden(s[1..])
  }

  /** `sanitizeQuery`. */
  function SanitizeQuery(query: string): (r: string)
    ensures |r| <= |query|
    ensures forall c :: c in r ==> c in query && !Forbidden(c)
  {
    TrimShape(RemoveForbidden(query));
    Trim(RemoveForbidden(query))
  }

  /**
   * The sanitized query holds no `$ { } ( )`, keeps only characters of the
   * input, has no white space at either end and is never longer than the input.
   */
  lemma SanitizeQueryShape(query: string)
    ensures var r := SanitizeQuery(query);
            && (forall i :: 0 <= i < |r| ==> !Forbidden(r[i]))
            && (forall c :: c in r ==> c in query)
            && (r != [] ==> !IsJsWhitespace(r[0]) && !IsJsWhitespace(r[|r| - 1]))
            && |r| <= |query|
  {
    var removed := RemoveForbidden(query);
    TrimShape(removed);
    var r := Trim(removed);
    forall i | 0 <= i < |r| ensures !Forbidden(r[i]) {
      assert r[i] in removed;
    }
  }

  /** Sanitizing twice is sanitizing once. */
  lemma SanitizeQueryIdempotent(query: string)
    ensures SanitizeQuery(SanitizeQuery(query)) == SanitizeQuery(query)
  {
    var r := SanitizeQuery(query);
    SanitizeQueryShape(query);
    assert RemoveForbidden(r) == r;
    TrimOfTrimmed(r);
  }
}
