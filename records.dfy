/** The `job_data` record index() builds from one raw search result (app.py:157-190). */
module Records {
  import opened Wrappers
  import opened PyValue
  import Text
  import Highlights
  import Summary

  /** One processed job: the dict handed to the template and to the `jobs` table. */
  datatype JobRecord = JobRecord(
    companyName: Json,
    title: Json,
    location: Json,
    description: Json,
    summary: string,
    extensions: string,
    via: Json,
    jobHighlights: string)

  /** The defaults of `job.get(...)` in the handler. */
  const NoDescriptionValue: Json := Str("")
  const UnknownVia: Json := Str("Unknown")
  const NoExtensions: Json := Dict([])

  /** The keys of a dict, in insertion order. */
  function Keys(entries: seq<(string, Json)>): (ks: seq<string>)
    ensures |ks| == |entries|
    ensures forall k :: 0 <= k < |entries| ==> ks[k] == entries[k].0
  {
    if entries == [] then [] else [entries[0].0] + Keys(entries[1..])
  }

  /** `", ".join(job.get('detected_extensions', {}).keys())`; a value that is
      not a dict has no `keys` method and raises an AttributeError. */
  function Extensions(job: Object): Result<string, Exception>
  {
    var d := Get(job, "detected_extensions", NoExtensions);
    if d.Dict? then Success(Text.Join(Keys(d.entries)))
    else Failure(AttributeError("'" + TypeName(d) + "' object has no attribute 'keys'"))
  }

  /** The body of index()'s loop for one raw result, up to the append:
      the description is read and summarized, `via` read, the highlights
      flattened, then the record built, its extensions joined last. `fallback`
      is the request's location and `reply` the outcome of this result's
      summarization call. */
  function MakeRecord(job: Object, fallback: Json, client: bool, reply: Summary.CallOutcome,
                      show: Json -> string): Result<JobRecord, Exception>
  {
    var description := Get(job, "description", NoDescriptionValue);
    var summary := Summary.Summarize(client, description, reply);
    var via := Get(job, "via", UnknownVia);
    var highlights := Highlights.Flattened(Get(job, "job_highlights", Highlights.Missing), show);
    if highlights.Failure? then Failure(highlights.error)
    else
      var extensions := Extensions(job);
      if extensions.Failure? then Failure(extensions.error)
      else Success(JobRecord(
        Get(job, "company_name", Null),
        Get(job, "title", Null),
        Get(job, "location", fallback),
        description,
        summary,
        extensions.value,
        via,
        highlights.value))
  }

  /** A record fails to build exactly when the highlights cannot be joined or
      `detected_extensions` is present and not a dict; the highlights are
      flattened first, so their TypeError wins when both go wrong. */
  lemma RecordFailure(job: Object, fallback: Json, client: bool, reply: Summary.CallOutcome,
                      show: Json -> string)
    ensures var h := Highlights.Flattened(Get(job, "job_highlights", Highlights.Missing), show);
      var r := MakeRecord(job, fallback, client, reply, show);
      && (r.Failure? <==>
            (h.Failure? || ("detected_extensions" in job && !job["detected_extensions"].Dict?)))
      && (h.Failure? ==> r == Failure(h.error))
      && (h.Success? && r.Failure? ==> r.error.AttributeError?)
  {
  }

  /** The defaults: a missing key gives None for the company and title, the
      request's location, "" for the description, "Unknown" for `via` and ""
      for the extensions; a present key, a present None included, is copied.
      The summary is that of the description actually stored. */
  lemma RecordDefaults(job: Object, fallback: Json, client: bool, reply: Summary.CallOutcome,
                       show: Json -> string)
    requires MakeRecord(job, fallback, client, reply, show).Success?
    ensures var r := MakeRecord(job, fallback, client, reply, show).value;
      && (if "company_name" in job then r.companyName == job["company_name"] else r.companyName == Null)
      && (if "title" in job then r.title == job["title"] else r.title == Null)
      && (if "location" in job then r.location == job["location"] else r.location == fallback)
      && (if "description" in job then r.description == job["description"] else r.description == Str(""))
      && (if "via" in job then r.via == job["via"] else r.via == Str("Unknown"))
      && ("detected_extensions" !in job ==> r.extensions == "")
      && ("job_highlights" !in job ==> r.jobHighlights == "")
      && r.summary == Summary.Summarize(client, r.description, reply)
  {
  }

  /** The extensions are the keys of `detected_extensions`, in insertion order:
      when there is at least one and none holds ", ", they can be read back. */
  lemma ExtensionsAreKeys(job: Object, fallback: Json, client: bool, reply: Summary.CallOutcome,
                          show: Json -> string)
    requires MakeRecord(job, fallback, client, reply, show).Success?
    requires "detected_extensions" in job && job["detected_extensions"].Dict?
    requires var es := job["detected_extensions"].entries;
      es != [] && forall k :: 0 <= k < |es| ==> !Text.HasSeparator(es[k].0)
    ensures Text.Split(MakeRecord(job, fallback, client, reply, show).value.extensions)
      == Keys(job["detected_extensions"].entries)
  {
    Text.SplitJoin(Keys(job["detected_extensions"].entries));
  }

  /** One turn of index()'s loop up to the append, as the handler runs it.
      It takes the same steps as MakeRecord, but runs the highlights loop
      itself, so that Index executes the loop the handler has. */
  method ProcessJob(job: Object, fallback: Json, client: bool, reply: Summary.CallOutcome,
                    show: Json -> string) returns (r: Result<JobRecord, Exception>)
    ensures r == MakeRecord(job, fallback, client, reply, show)
  {
    var description := Get(job, "description", NoDescriptionValue);
    var summary := Summary.Summarize(client, description, reply);
    var via := Get(job, "via", UnknownVia);
    var highlights := Highlights.FlattenHighlights(Get(job, "job_highlights", Highlights.Missing), show);
    if highlights.Failure? {
      return Failure(highlights.error);
    }
    var extensions := Extensions(job);
    if extensions.Failure? {
      return Failure(extensions.error);
    }
    r := Success(JobRecord(
      Get(job, "company_name", Null),
      Get(job, "title", Null),
      Get(job, "location", fallback),
      description,
      summary,
      extensions.value,
      via,
      highlights.value));
  }
}
