/**
 * src/shared/interceptors/transform/transform.interceptor.ts: the response
 * envelope the interceptor wraps around a handler's output.
 */
module Transform {
  import opened Wrappers
  import opened Text
  import opened TransformConstants

  /** `getDefaultMessage`: the HTTP method, compared in upper case, picks the message. */
  function GetDefaultMessage(httpMethod: Option<string>): (r: string)
    ensures r == CREATED <==> httpMethod.Some? && ToUpper(httpMethod.value) == "POST"
    ensures r == UPDATED <==> httpMethod.Some? && ToUpper(httpMethod.value) in ["PUT", "PATCH"]
    ensures r == DELETED <==> httpMethod.Some? && ToUpper(httpMethod.value) == "DELETE"
    ensures r == FETCHED <==> httpMethod.None? || ToUpper(httpMethod.value) !in ["POST", "PUT", "PATCH", "DELETE"]
  {
    if httpMethod.None? || httpMethod.value == "" then FETCHED
    else
      var m := ToUpper(httpMethod.value);
      if m == "POST" then CREATED
      else if m == "PUT" || m == "PATCH" then UPDATED
      else if m == "DELETE" then DELETED
      else FETCHED
  }

  /** Methods that differ only in the case of their ASCII letters get the same message. */
  lemma DefaultMessageIgnoresCase(m1: string, m2: string)
    requires ToUpper(m1) == ToUpper(m2)
    ensures GetDefaultMessage(Some(m1)) == GetDefaultMessage(Some(m2))
  {
  }

  /** `routes.some(route => path.startsWith(route))`. */
  function AnyPrefix(routes: seq<string>, path: string): (b: bool)
    ensures b <==> exists i :: 0 <= i < |routes| && StartsWith(path, routes[i])
  {
    if |routes| == 0 then false
    else StartsWith(path, routes[0]) || AnyPrefix(routes[1..], path)
  }

  /** `shouldSkipTransform`. */
  function ShouldSkipTransform(path: string): (skip: bool)
    ensures skip <==> exists i :: 0 <= i < |SKIP_TRANSFORM_ROUTES| && StartsWith(path, SKIP_TRANSFORM_ROUTES[i])
  {
    AnyPrefix(SKIP_TRANSFORM_ROUTES, path)
  }

  /** Skipping matches by prefix: "/health/db" and "/auth/login-page" are skipped too. */
  lemma SkipByPrefix(route: string, rest: string)
    requires route in SKIP_TRANSFORM_ROUTES
    ensures ShouldSkipTransform(route + rest)
  {
    var i :| 0 <= i < |SKIP_TRANSFORM_ROUTES| && SKIP_TRANSFORM_ROUTES[i] == route;
    assert (route + rest)[..|route|] == route;
  }

  /** `TransformOptions` as the `@TransformResponse` decorator sets them; a key left out is None. */
  datatype TransformOptions = TransformOptions(responseType: Option<string>, message: Option<string>)

  /** The options `intercept` passes on. */
  datatype MergedOptions = MergedOptions(responseType: string, message: string)

  /**
   * `{ responseType: STANDARD, message: getDefaultMessage(method), ...decorator }`:
   * each key the decorator supplies replaces its default.
   */
  function MergeOptions(httpMethod: Option<string>, decorator: Option<TransformOptions>): (r: MergedOptions)
    ensures r.responseType == (if decorator.Some? && decorator.value.responseType.Some? then decorator.value.responseType.value else STANDARD)
    ensures r.message == (if decorator.Some? && decorator.value.message.Some? then decorator.value.message.value else GetDefaultMessage(httpMethod))
  {
    var defaults := MergedOptions(STANDARD, GetDefaultMessage(httpMethod));
    match decorator
    case None => defaults
    case Some(d) =>
      var withType := if d.responseType.Some? then defaults.(responseType := d.responseType.value) else defaults;
      if d.message.Some? then withType.(message := d.message.value) else withType
  }

  /** `meta` of a paginated handler result. */
  datatype PageMeta = PageMeta(total: int, page: int, limit: int, totalPages: int)

  /**
   * A handler's output: a `{ data, meta }` object (with `meta` possibly
   * missing) or any other value.
   */
  datatype Data<T> = Paged(items: seq<T>, meta: Option<PageMeta>) | Value(v: T)

  datatype Pagination = Pagination(page: int, limit: int, totalItems: int, totalPages: int, hasNextPage: bool, hasPreviousPage: bool)

  /** What the interceptor sends; a timestamp is not part of the model. */
  datatype Response<T> =
    | Passthrough(body: Data<T>)
    | Single(statusCode: int, message: string, data: Data<T>)
    | PaginatedPage(statusCode: int, message: string, items: seq<T>, pagination: Pagination)

  /** The TypeError thrown by reading `meta.page` when the handler output has no `meta`; it is rethrown. */
  datatype Thrown = TypeError

  /** `transformPaginatedResponse`. */
  function TransformPaginatedResponse<T>(data: Data<T>, statusCode: int, message: string): (r: Result<Response<T>, Thrown>)
    ensures r.Ok? <==> data.Paged? && data.meta.Some?
    ensures r.Err? ==> r == Err(TypeError)
    ensures r.Ok? ==> && r.value.PaginatedPage? && r.value.items == data.items
                      && r.value.statusCode == statusCode && r.value.message == message
                      && r.value.pagination.page == data.meta.value.page
                      && r.value.pagination.totalItems == data.meta.value.total
  {
    if data.Paged? && data.meta.Some? then
      var meta := data.meta.value;
      Ok(PaginatedPage(statusCode, message, data.items,
                       Pagination(meta.page, meta.limit, meta.total, meta.totalPages, meta.page < meta.totalPages, meta.page > 1)))
    else Err(TypeError)
  }

  /** `transformSingleResponse`. */
  function TransformSingleResponse<T>(data: Data<T>, statusCode: int, message: string): (r: Response<T>)
    ensures r.Single? && r.data == data && r.statusCode == statusCode && r.message == message
  {
    Single(statusCode, message, data)
  }

  /** `handleTransform`: the paginated shape for `responseType === 'paginated'`, the single shape otherwise. */
  function HandleTransform<T>(data: Data<T>, statusCode: int, options: MergedOptions): (r: Result<Response<T>, Thrown>)
    ensures options.responseType != PAGINATED ==> r == Ok(Single(statusCode, options.message, data))
    ensures (r.Ok? && r.value.PaginatedPage?) <==> options.responseType == PAGINATED && data.Paged? && data.meta.Some?
    ensures r.Err? ==> options.responseType == PAGINATED && r == Err(TypeError)
  {
    if options.responseType == PAGINATED then TransformPaginatedResponse(data, statusCode, options.message)
    else Ok(TransformSingleResponse(data, statusCode, options.message))
  }

  /** `intercept`, with the handler's output, the response status code and the decorator metadata as inputs. */
  function Intercept<T>(path: string, httpMethod: Option<string>, decorator: Option<TransformOptions>,
                        data: Data<T>, statusCode: int): (r: Result<Response<T>, Thrown>)
    ensures ShouldSkipTransform(path) ==> r == Ok(Passthrough(data))
    ensures r.Err? ==> !ShouldSkipTransform(path) && r == Err(TypeError)
  {
    if ShouldSkipTransform(path) then Ok(Passthrough(data))
    else HandleTransform(data, statusCode, MergeOptions(httpMethod, decorator))
  }

  /**
   * A skipped route passes the handler's output through untouched; any
   * other route never does.
   */
  lemma InterceptSkips<T>(path: string, httpMethod: Option<string>, decorator: Option<TransformOptions>, data: Data<T>, statusCode: int)
    ensures ShouldSkipTransform(path) <==> Intercept(path, httpMethod, decorator, data, statusCode) == Ok(Passthrough(data))
    ensures !ShouldSkipTransform(path) ==>
              Intercept(path, httpMethod, decorator, data, statusCode).Err? || !Intercept(path, httpMethod, decorator, data, statusCode).value.Passthrough?
  {
  }

  /**
   * On a route that is not skipped the paginated shape comes out exactly
   * when the merged response type is "paginated"; otherwise the single
   * shape carries the handler's data, the status code and the merged
   * message unchanged.
   */
  lemma InterceptShapes<T>(path: string, httpMethod: Option<string>, decorator: Option<TransformOptions>, data: Data<T>, statusCode: int)
    requires !ShouldSkipTransform(path)
    ensures var o := MergeOptions(httpMethod, decorator);
            var r := Intercept(path, httpMethod, decorator, data, statusCode);
            && ((r.Ok? && r.value.PaginatedPage?) <==> (o.responseType == PAGINATED && data.Paged? && data.meta.Some?))
            && (r.Err? <==> (o.responseType == PAGINATED && !(data.Paged? && data.meta.Some?)))
            && (o.responseType != PAGINATED ==> r == Ok(Single(statusCode, o.message, data)))
            && (decorator.None? ==> r == Ok(Single(statusCode, GetDefaultMessage(httpMethod), data)))
  {
  }

  /**
   * In the paginated shape there is a next page iff the page is before the
   * last, a previous page iff the page is after the first, and the counts
   * are copied from `meta`.
   */
  lemma PaginationFlags<T>(items: seq<T>, meta: PageMeta, statusCode: int, message: string)
    ensures var r := TransformPaginatedResponse(Paged(items, Some(meta)), statusCode, message);
            && r.Ok? && r.value.PaginatedPage?
            && r.value.items == items && r.value.statusCode == statusCode && r.value.message == message
            && var p := r.value.pagination;
            && (p.hasNextPage <==> meta.page < meta.totalPages)
            && (p.hasPreviousPage <==> meta.page > 1)
            && p.totalItems == meta.total
            && p.page == meta.page && p.limit == meta.limit && p.totalPages == meta.totalPages
  {
  }

  /** The first page of several has a next page and no previous one; the last has a previous one and no next. */
  lemma FirstAndLastPage<T>(items: seq<T>, total: int, limit: int, totalPages: int, statusCode: int, message: string)
    requires totalPages > 1
    ensures var first := TransformPaginatedResponse(Paged(items, Some(PageMeta(total, 1, limit, totalPages))), statusCode, message);
            first.Ok? && first.value.PaginatedPage? && first.value.pagination.hasNextPage && !first.value.pagination.hasPreviousPage
    ensures var last := TransformPaginatedResponse(Paged(items, Some(PageMeta(total, totalPages, limit, totalPages))), statusCode, message);
            last.Ok? && last.value.PaginatedPage? && !last.value.pagination.hasNextPage && last.value.pagination.hasPreviousPage
  {
  }
}
