/** The handler context of root.go (`Root`): the status a handler chose,
    the request parameters, and the page configuration; the writes `Send`
    and `Json` make; and the file list `RenderTempate` parses. */
module Root {
  import opened Wrappers
  import opened Http
  import Pages

  /** The parts of `Root` the model keeps: `_status`, `RequestParams` and
      `pages`. The writer and the request are not values of the model. */
  datatype Context = Context(status: int, params: map<string, string>, pages: Pages.Pages)

  /** The status `Send` and `Json` write for a context: the stored one if it
      is positive, 200 otherwise. */
  function SentStatus(c: Context): int
  {
    if c.status > 0 then c.status else StatusOK
  }

  /** Everything but the status is the same. */
  predicate SameBesidesStatus(a: Context, b: Context)
  {
    a.params == b.params && a.pages == b.pages
  }

  /** `Status`: records `code` and hands back the same context, so calls
      chain. */
  function Status(c: Context, code: int): (r: Context)
    ensures r.status == code && SameBesidesStatus(r, c)
    ensures code > 0 ==> SentStatus(r) == code
  {
    c.(status := code)
  }

  function OK(c: Context): (r: Context)
    ensures r.status == 200 && SentStatus(r) == 200 && SameBesidesStatus(r, c)
  {
    Status(c, 200)
  }

  function Created(c: Context): (r: Context)
    ensures r.status == 201 && SentStatus(r) == 201 && SameBesidesStatus(r, c)
  {
    Status(c, 201)
  }

  function BadRequest(c: Context): (r: Context)
    ensures r.status == 400 && SentStatus(r) == 400 && SameBesidesStatus(r, c)
  {
    Status(c, 400)
  }

  function Unauthorized(c: Context): (r: Context)
    ensures r.status == 401 && SentStatus(r) == 401 && SameBesidesStatus(r, c)
  {
    Status(c, 401)
  }

  function Forbidden(c: Context): (r: Context)
    ensures r.status == 403 && SentStatus(r) == 403 && SameBesidesStatus(r, c)
  {
    Status(c, 403)
  }

  function NotFound(c: Context): (r: Context)
    ensures r.status == 404 && SentStatus(r) == 404 && SameBesidesStatus(r, c)
  {
    Status(c, 404)
  }

  function MethodNotAllowed(c: Context): (r: Context)
    ensures r.status == 405 && SentStatus(r) == 405 && SameBesidesStatus(r, c)
  {
    Status(c, 405)
  }

  function InternalServerError(c: Context): (r: Context)
    ensures r.status == 500 && SentStatus(r) == 500 && SameBesidesStatus(r, c)
  {
    Status(c, 500)
  }

  function NotImplemented(c: Context): (r: Context)
    ensures r.status == 501 && SentStatus(r) == 501 && SameBesidesStatus(r, c)
  {
    Status(c, 501)
  }

  /** `Send`: the status header, then exactly the given body. */
  function Send(c: Context, data: string): (writes: seq<Write>)
    ensures |writes| == 2 && writes[1] == WriteBody(data)
    ensures c.status > 0 ==> writes[0] == WriteStatus(c.status)
    ensures c.status <= 0 ==> writes[0] == WriteStatus(200)
  {
    [WriteStatus(SentStatus(c)), WriteBody(data)]
  }

  /** A chain of `Status` calls, applied left to right. */
  function WithStatuses(c: Context, codes: seq<int>): Context
    decreases |codes|
  {
    if |codes| == 0 then c else WithStatuses(Status(c, codes[0]), codes[1..])
  }

  /** Successive status calls overwrite each other: only the last one is
      stored, and it is what `Send` writes when it is positive. */
  lemma {:induction false} LastStatusWins(c: Context, codes: seq<int>, data: string)
    requires |codes| > 0
    ensures WithStatuses(c, codes).status == codes[|codes| - 1]
    ensures SameBesidesStatus(WithStatuses(c, codes), c)
    ensures var last := codes[|codes| - 1];
      Send(WithStatuses(c, codes), data)[0] == WriteStatus(if last > 0 then last else 200)
    decreases |codes|
  {
    if |codes| > 1 {
      LastStatusWins(Status(c, codes[0]), codes[1..], data);
    }
  }

  /** What `Json` leaves behind: the context (its status is set to 500 when
      encoding fails) and the writes it made. */
  datatype JsonResponse = JsonResponse(context: Context, writes: seq<Write>)

  /** `Json`, with the outcome of JSON encoding given as `payload`: `None`
      when encoding failed. The content type header comes first, then the
      status, then the encoded bytes (nothing when encoding failed). */
  function Json(c: Context, payload: Option<string>): (r: JsonResponse)
    ensures |r.writes| == 3
    ensures r.writes[0] == SetHeader("Content-Type", "application/json")
    ensures SameBesidesStatus(r.context, c)
    ensures payload.None? ==> r.context.status == 500 && r.writes[1] == WriteStatus(500) && r.writes[2] == WriteBody("")
    ensures payload.Some? ==> r.context == c && r.writes[2] == WriteBody(payload.value)
    ensures payload.Some? && c.status > 0 ==> r.writes[1] == WriteStatus(c.status)
    ensures payload.Some? && c.status <= 0 ==> r.writes[1] == WriteStatus(200)
  {
    var ctx := if payload.None? then Status(c, StatusInternalServerError) else c;
    var body := if payload.Some? then payload.value else "";
    JsonResponse(ctx, [SetHeader("Content-Type", "application/json"), WriteStatus(SentStatus(ctx)), WriteBody(body)])
  }

  /** The files `RenderTempate` parses: the configured template files, then
      the file of the requested template in the templates directory. */
  function TemplateFiles(c: Context, file: string): (files: seq<string>)
    ensures |files| == |c.pages.templates| + 1
    ensures files[..|c.pages.templates|] == c.pages.templates
    ensures files[|files| - 1] == Pages.TemplateFile(c.pages.templatesPath, file)
  {
    c.pages.templates + [Pages.TemplateFile(c.pages.templatesPath, file)]
  }

  /** With pages built by `NewPages`, every file parsed is a template file of
      the configured directory: the configured names, then the requested
      one. */
  lemma TemplateFilesOfNewPages(c: Context, base: string, dir: string, names: seq<string>, file: string)
    requires c.pages == Pages.NewPages(base, dir, names)
    ensures TemplateFiles(c, file) == Pages.TemplateList(dir, names + [file])
  {
    var files := TemplateFiles(c, file);
    var expected := Pages.TemplateList(dir, names + [file]);
    assert |files| == |expected|;
    forall i | 0 <= i < |files|
      ensures files[i] == expected[i]
    {
      if i < |names| {
        assert files[i] == c.pages.templates[i];
      }
    }
  }
}
