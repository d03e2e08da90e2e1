/** src/shared/utils/validation.util.ts: `validatePaginationParams`. */
module Validation {
  import opened Wrappers
  import opened Text
  import opened PaginationConstants

  /**
   * A raw `page` or `limit` as `Number(...)` sees it: absent, a number for
   * which `Number.isInteger` holds, or anything else (NaN, a fraction).
   */
  datatype NumberParam = Absent | Integer(n: int) | NotAnInteger

  datatype PaginationParams = PaginationParams(
    page: NumberParam,
    limit: NumberParam,
    sort: Option<string>,
    fields: Option<string>,
    search: Option<string>)

  /** `validatedData`: page, limit and sort are always set once the input is valid. */
  datatype ValidatedData = ValidatedData(page: int, limit: int, sort: string, fields: Option<string>, search: Option<string>)

  /** One entry of `ERROR_MESSAGES.PAGINATION`; `Message` gives its text. */
  datatype PaginationError = InvalidPage | InvalidLimit | InvalidSortParam | InvalidFields | InvalidSearch

  function Message(e: PaginationError): string {
    match e
    case InvalidPage => INVALID_PAGE
    case InvalidLimit => INVALID_LIMIT
    case InvalidSortParam => INVALID_SORT
    case InvalidFields => INVALID_FIELDS
    case InvalidSearch => INVALID_SEARCH
  }

  /** The result; `errors` holds the pushed messages, `Message` of each entry. */
  datatype ValidationResult = ValidationResult(isValid: bool, errors: seq<PaginationError>, validatedData: Option<ValidatedData>)

  /** JavaScript truthiness of an optional string. */
  predicate Given(s: Option<string>) {
    s.Some? && s.value != ""
  }

  /** A page or limit is accepted iff it is absent or an integer of at least 1. */
  predicate NumberOk(p: NumberParam) {
    p.Integer? ==> p.n >= 1
  }

  predicate PageOk(p: NumberParam) {
    !p.NotAnInteger? && NumberOk(p)
  }

  /** `field:order`: the field before the first ':' is allowed and the next piece lower-cases to asc or desc. */
  predicate SortOk(s: string) {
    var parts := Split(s, ':');
    parts[0] in ALLOWED_SORT_FIELDS && |parts| >= 2 && ToLower(parts[1]) in ["asc", "desc"]
  }

  predicate SearchOk(s: string) {
    AllowedSearchPattern(s) && MIN_SEARCH_LENGTH <= |s| <= MAX_SEARCH_LENGTH
  }

  function PageErrors(p: PaginationParams): seq<PaginationError> {
    if PageOk(p.page) then [] else [InvalidPage]
  }

  function LimitErrors(p: PaginationParams): seq<PaginationError> {
    if PageOk(p.limit) then [] else [InvalidLimit]
  }

  function SortErrors(p: PaginationParams): seq<PaginationError> {
    if !Given(p.sort) || SortOk(p.sort.value) then [] else [InvalidSortParam]
  }

  function FieldsErrors(p: PaginationParams): seq<PaginationError> {
    if !Given(p.fields) || AllowedFieldPattern(p.fields.value) then [] else [InvalidFields]
  }

  function SearchErrors(p: PaginationParams): seq<PaginationError> {
    if !Given(p.search) || SearchOk(p.search.value) then [] else [InvalidSearch]
  }

  /** The error messages the five checks produce, in the order they run. */
  function Errors(p: PaginationParams): seq<PaginationError> {
    PageErrors(p) + LimitErrors(p) + SortErrors(p) + FieldsErrors(p) + SearchErrors(p)
  }

  function Min(a: int, b: int): int {
    if a < b then a else b
  }

  /**
   * `validatePaginationParams`: the checks run one after another, each
   * pushing its message onto `errors` or storing its value in the data.
   */
  method ValidatePaginationParams(params: PaginationParams) returns (r: ValidationResult)
    ensures r.errors == Errors(params)
    ensures r.isValid <==> r.errors == []
    ensures r.validatedData.Some? <==> r.isValid
    ensures r.isValid ==>
              var d := r.validatedData.value;
              && d.page == (if params.page.Absent? then DEFAULT_PAGE else params.page.n)
              && d.limit == (if params.limit.Absent? then DEFAULT_LIMIT else Min(params.limit.n, MAX_LIMIT))
              && d.sort == (if Given(params.sort) then params.sort.value else DEFAULT_SORT)
              && d.fields == (if Given(params.fields) then params.fields else None)
              && d.search == (if Given(params.search) then params.search else None)
              && 1 <= d.page && 1 <= d.limit <= MAX_LIMIT
  {
    var errors: seq<PaginationError> := [];
    var page, limit, sort, fields, search;
    errors, page := CheckPage(params, errors);
    errors, limit := CheckLimit(params, errors);
    errors, sort := CheckSort(params, errors);
    errors, fields := CheckFields(params, errors);
    errors, search := CheckSearch(params, errors);
    var valid := |errors| == 0;
    r := ValidationResult(valid, errors, if valid then Some(ValidatedData(page, limit, sort, fields, search)) else None);
  }

  /** Lines 23-32: the page, or its error. */
  method CheckPage(params: PaginationParams, errors: seq<PaginationError>) returns (errors': seq<PaginationError>, page: int)
    ensures errors' == errors + PageErrors(params)
    ensures PageErrors(params) == [] ==> page == (if params.page.Absent? then DEFAULT_PAGE else params.page.n) >= 1
  {
    errors', page := errors, 0;
    match params.page {
      case Absent => page := DEFAULT_PAGE;
      case NotAnInteger => errors' := errors' + [InvalidPage];
      case Integer(n) =>
        if n < 1 {
          errors' := errors' + [InvalidPage];
        } else {
          page := n;
        }
    }
  }

  /** Lines 35-44: the limit, capped at MAX_LIMIT, or its error. */
  method CheckLimit(params: PaginationParams, errors: seq<PaginationError>) returns (errors': seq<PaginationError>, limit: int)
    ensures errors' == errors + LimitErrors(params)
    ensures LimitErrors(params) == [] ==>
              limit == (if params.limit.Absent? then DEFAULT_LIMIT else Min(params.limit.n, MAX_LIMIT)) && 1 <= limit <= MAX_LIMIT
  {
    errors', limit := errors, 0;
    match params.limit {
      case Absent => limit := DEFAULT_LIMIT;
      case NotAnInteger => errors' := errors' + [InvalidLimit];
      case Integer(n) =>
        if n < 1 {
          errors' := errors' + [InvalidLimit];
        } else {
          limit := Min(n, MAX_LIMIT);
        }
    }
  }

  /** Lines 47-63: the sort as given, the default sort, or the error. */
  method CheckSort(params: PaginationParams, errors: seq<PaginationError>) returns (errors': seq<PaginationError>, sort: string)
    ensures errors' == errors + SortErrors(params)
    ensures SortErrors(params) == [] ==> sort == (if Given(params.sort) then params.sort.value else DEFAULT_SORT)
  {
    errors', sort := errors, "";
    if Given(params.sort) {
      if !SortOk(params.sort.value) {
        errors' := errors' + [InvalidSortParam];
      } else {
        sort := params.sort.value;
      }
    } else {
      sort := DEFAULT_SORT;
    }
  }

  /** Lines 66-73: the fields when given and well-formed, or the error. */
  method CheckFields(params: PaginationParams, errors: seq<PaginationError>) returns (errors': seq<PaginationError>, fields: Option<string>)
    ensures errors' == errors + FieldsErrors(params)
    ensures FieldsErrors(params) == [] ==> fields == (if Given(params.fields) then params.fields else None)
  {
    errors', fields := errors, None;
    if Given(params.fields) {
      if !AllowedFieldPattern(params.fields.value) {
        errors' := errors' + [InvalidFields];
      } else {
        fields := params.fields;
      }
    }
  }

  /** Lines 76-85: the search text when given, well-formed and of allowed length, or the error. */
  method CheckSearch(params: PaginationParams, errors: seq<PaginationError>) returns (errors': seq<PaginationError>, search: Option<string>)
    ensures errors' == errors + SearchErrors(params)
    ensures SearchErrors(params) == [] ==> search == (if Given(params.search) then params.search else None)
  {
    errors', search := errors, None;
    if Given(params.search) {
      var s := params.search.value;
      if !AllowedSearchPattern(s) || |s| < MIN_SEARCH_LENGTH || |s| > MAX_SEARCH_LENGTH {
        errors' := errors' + [InvalidSearch];
      } else {
        search := params.search;
      }
    }
  }

  /**
   * Each message is reported exactly when its check fails: `page` and
   * `limit` must be integers of at least 1, a given `sort`, `fields` or
   * `search` must pass its pattern.
   */
  lemma ErrorsExactly(p: PaginationParams)
    ensures InvalidPage in Errors(p) <==> (p.page.NotAnInteger? || (p.page.Integer? && p.page.n < 1))
    ensures InvalidLimit in Errors(p) <==> (p.limit.NotAnInteger? || (p.limit.Integer? && p.limit.n < 1))
    ensures InvalidSortParam in Errors(p) <==> (Given(p.sort) && !SortOk(p.sort.value))
    ensures InvalidFields in Errors(p) <==> (Given(p.fields) && !AllowedFieldPattern(p.fields.value))
    ensures InvalidSearch in Errors(p) <==> (Given(p.search) && !SearchOk(p.search.value))
    ensures |Errors(p)| <= 5
  {
    var a, b, c, d, e := PageErrors(p), LimitErrors(p), SortErrors(p), FieldsErrors(p), SearchErrors(p);
    assert Errors(p) == a + b + c + d + e;
    assert forall x :: x in a ==> x == InvalidPage;
    assert forall x :: x in b ==> x == InvalidLimit;
    assert forall x :: x in c ==> x == InvalidSortParam;
    assert forall x :: x in d ==> x == InvalidFields;
    assert forall x :: x in e ==> x == InvalidSearch;
  }

  /** The first two pieces of `field:order[:rest]`. */
  lemma SortPieces(field: string, order: string, rest: string)
    requires ':' !in field && ':' !in order
    ensures Split(field + ":" + order, ':') == [field, order]
    ensures var parts := Split(field + ":" + order + ":" + rest, ':');
            |parts| >= 2 && parts[0] == field && parts[1] == order
  {
    var c: string := ":";
    assert c == [':'];
    SplitCons(field, ':', order);
    SplitNone(order, ':');
    var t := order + c + rest;
    assert field + c + order + c + rest == field + c + t;
    SplitCons(field, ':', t);
    SplitCons(order, ':', rest);
  }

  /**
   * `field:order`, with anything after a further ':' ignored, is accepted
   * when the field is allowed and the order is asc or desc in any case.
   */
  lemma SortAccepted(field: string, order: string, rest: string)
    requires field in ALLOWED_SORT_FIELDS && ':' !in order
    ensures SortOk(field + ":" + order) <==> ToLower(order) in ["asc", "desc"]
    ensures SortOk(field + ":" + order + ":" + rest) <==> ToLower(order) in ["asc", "desc"]
  {
    assert ':' !in field by {
      assert field == "name" || field == "createdAt" || field == "updatedAt";
    }
    SortPieces(field, order, rest);
  }

  /** A sort whose field is not allowed is refused whatever follows it. */
  lemma SortFieldRequired(field: string, rest: string)
    requires ':' !in field && field !in ALLOWED_SORT_FIELDS
    ensures !SortOk(field) && !SortOk(field + ":" + rest)
  {
    SplitNone(field, ':');
    assert field + ":" + rest == field + [':'] + rest;
    SplitCons(field, ':', rest);
  }
}
