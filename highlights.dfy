/** Flattening of a search result's `job_highlights` field into one display
    string (app.py, inside index()). The field has no fixed shape: a dict of
    lists or strings, a flat list, a plain string, or anything else. */
module Highlights {
  import opened Wrappers
  import opened PyValue
  import Text

  /** `job.get('job_highlights', {})`: the default when the key is absent. */
  const Missing: Json := Dict([])

  /** What one dict value adds to `all_highlights`: a list all of its items,
      a str itself, anything else nothing. */
  function Contribution(value: Json): seq<Json>
  {
    match value
    case List(items) => items
    case Str(_) => [value]
    case _ => []
  }

  /** `all_highlights` once the loop has visited `entries`, in order. */
  function Pieces(entries: seq<(string, Json)>): seq<Json>
  {
    if entries == [] then []
    else Pieces(entries[..|entries| - 1]) + Contribution(entries[|entries| - 1].1)
  }

  /** The string the handler stores as `job_highlights`, or the exception it raises. */
  function Flattened(highlights: Json, show: Json -> string): Result<string, Exception>
  {
    match highlights
    case Dict(entries) => JoinValues(Pieces(entries))
    case List(items) => Success(Text.Join(Rendered(items, show)))
    case Str(s) => Success(s)
    case _ => Success("")
  }

  /** The flattening as the handler runs it: the dict branch builds
      `all_highlights` with extend/append in a loop over the entries. */
  method FlattenHighlights(highlights: Json, show: Json -> string) returns (r: Result<string, Exception>)
    ensures r == Flattened(highlights, show)
  {
    r := Success("");
    if highlights.Dict? {
      var entries := highlights.entries;
      var all: seq<Json> := [];
      var i := 0;
      while i < |entries|
        invariant 0 <= i <= |entries|
        invariant all == Pieces(entries[..i])
      {
        var value := entries[i].1;
        if value.List? {
          all := all + value.items;
        } else if value.Str? {
          all := all + [value];
        }
        assert entries[..i + 1][..i] == entries[..i];
        i := i + 1;
      }
      assert entries[..i] == entries;
      r := JoinValues(all);
    } else if highlights.List? {
      r := Success(Text.Join(Rendered(highlights.items, show)));
    } else if highlights.Str? {
      r := Success(highlights.s);
    }
  }

  /** The entries are taken in order: the pieces of two runs of entries are
      the pieces of the first followed by those of the second. */
  lemma {:induction false} PiecesAppend(a: seq<(string, Json)>, b: seq<(string, Json)>)
    ensures Pieces(a + b) == Pieces(a) + Pieces(b)
    decreases |b|
  {
    if b != [] {
      var c := a + b;
      assert c[..|c| - 1] == a + b[..|b| - 1];
      PiecesAppend(a, b[..|b| - 1]);
    } else {
      assert a + b == a;
    }
  }

  /** A value is a piece exactly when it is an element of a list value or is a
      str value of some entry. */
  lemma {:induction false} PiecesMembers(entries: seq<(string, Json)>, x: Json)
    ensures x in Pieces(entries) <==>
      exists k :: 0 <= k < |entries| && x in Contribution(entries[k].1)
  {
    if entries != [] {
      var init := entries[..|entries| - 1];
      PiecesMembers(init, x);
      if x in Pieces(entries) && !(x in Pieces(init)) {
        assert x in Contribution(entries[|entries| - 1].1);
      }
      if exists k :: 0 <= k < |entries| && x in Contribution(entries[k].1) {
        var k :| 0 <= k < |entries| && x in Contribution(entries[k].1);
        if k < |init| {
          assert init[k] == entries[k];
        }
      }
    }
  }

  /** Keys never contribute: entries with the same values, in the same order,
      give the same pieces whatever their keys. */
  lemma {:induction false} PiecesIgnoreKeys(a: seq<(string, Json)>, b: seq<(string, Json)>)
    requires |a| == |b|
    requires forall k :: 0 <= k < |a| ==> a[k].1 == b[k].1
    ensures Pieces(a) == Pieces(b)
  {
    if a != [] {
      PiecesIgnoreKeys(a[..|a| - 1], b[..|b| - 1]);
    }
  }

  /** Flattening fails only on a dict one of whose list values holds something
      other than a str; the failure is then a TypeError. Every other shape,
      the missing key included, gives a string. */
  lemma FlattenedFails(highlights: Json, show: Json -> string)
    ensures Flattened(highlights, show).Failure? <==>
      highlights.Dict? &&
      exists k, x :: 0 <= k < |highlights.entries| && highlights.entries[k].1.List? &&
        x in highlights.entries[k].1.items && !x.Str?
    ensures Flattened(highlights, show).Failure? ==> Flattened(highlights, show).error.TypeError?
  {
    if highlights.Dict? {
      var entries := highlights.entries;
      var p := Pieces(entries);
      if Flattened(highlights, show).Failure? {
        var j :| 0 <= j < |p| && !p[j].Str?;
        PiecesMembers(entries, p[j]);
      }
      if exists k, x :: 0 <= k < |entries| && entries[k].1.List? && x in entries[k].1.items && !x.Str? {
        var k, x :| 0 <= k < |entries| && entries[k].1.List? && x in entries[k].1.items && !x.Str?;
        PiecesMembers(entries, x);
      }
    }
  }

  /** The result for a dict is its pieces joined with ", " and nothing else:
      when there is at least one piece and none holds ", ", splitting the
      result gives back exactly the pieces, in order. */
  lemma DictPiecesRecoverable(entries: seq<(string, Json)>, show: Json -> string)
    requires Flattened(Dict(entries), show).Success?
    requires Pieces(entries) != []
    requires forall x :: x in Pieces(entries) ==> x.Str? && !Text.HasSeparator(x.s)
    ensures Text.Split(Flattened(Dict(entries), show).value) == Texts(Pieces(entries))
  {
    var p := Pieces(entries);
    var t := Texts(p);
    assert forall k :: 0 <= k < |t| ==> !Text.HasSeparator(t[k]) by {
      forall k | 0 <= k < |t| ensures !Text.HasSeparator(t[k]) {
        assert p[k] in p;
      }
    }
    Text.SplitJoin(t);
  }

  /** A flat list gives the string forms of its items joined with ", ": when
      the list is not empty and no string form holds ", ", splitting the result
      gives back exactly those forms, in order. */
  lemma ListItemsRecoverable(items: seq<Json>, show: Json -> string)
    requires items != []
    requires forall k :: 0 <= k < |items| ==> !Text.HasSeparator(Render(items[k], show))
    ensures Text.Split(Flattened(List(items), show).value) == Rendered(items, show)
  {
    Text.SplitJoin(Rendered(items, show));
  }
}
