/**
 * The mapper: turns captured HTTP exchanges into an endpoint map. Paths are normalised
 * (numeric and UUID segments become placeholders), exchanges are grouped per
 * (method, normalised path), and each group is summarised into one endpoint;
 * dependencies, auth patterns and common headers are read off the whole traffic.
 */
module ApiMapper {

  import opened Wrappers
  import opened Text
  import opened Sorting
  import opened PyValues
  import opened Interactions
  import opened TestModel
  import opened Grouping
  import opened Registry

  // ---------------------------------------------------------------- path normalisation

  /** `re.match(r"^\d+$", p)`: `$` also matches just before a final newline. */
  predicate IsIdSegment(p: string)
  {
    (|p| >= 1 && AllDigits(p))
    || (|p| >= 2 && p[|p| - 1] == '\n' && AllDigits(p[..|p| - 1]))
  }

  /** Exactly 8-4-4-4-12 hexadecimal digits of either case, separated by dashes. */
  predicate IsUuidBody(c: string)
  {
    |c| == 36
    && forall i :: 0 <= i < 36 ==>
      if i == 8 || i == 13 || i == 18 || i == 23 then c[i] == '-' else IsHexDigit(c[i])
  }

  /** The UUID pattern under `re.IGNORECASE`, with the same reading of `$`. */
  predicate IsUuidSegment(p: string)
  {
    IsUuidBody(p) || (|p| == 37 && p[36] == '\n' && IsUuidBody(p[..36]))
  }

  const IdPlaceholder: string := "{id}"
  const UuidPlaceholder: string := "{uuid}"

  /** The normalised form of one segment. */
  function NormalizeSegment(p: string): (r: string)
    ensures IsIdSegment(p) ==> r == IdPlaceholder
    ensures !IsIdSegment(p) && IsUuidSegment(p) ==> r == UuidPlaceholder
    ensures !IsIdSegment(p) && !IsUuidSegment(p) ==> r == p
  {
    if IsIdSegment(p) then IdPlaceholder
    else if IsUuidSegment(p) then UuidPlaceholder
    else p
  }

  function NormalizeSegments(parts: seq<string>): (r: seq<string>)
    ensures |r| == |parts|
  {
    seq(|parts|, i requires 0 <= i < |parts| => NormalizeSegment(parts[i]))
  }

  /** The segments of a path: outer slashes stripped, then split on "/". */
  function PathSegments(path: string): (r: seq<string>)
    ensures |r| >= 1
  {
    Split(StripSet(path, {'/'}), '/')
  }

  /** `_normalize_path`: "/" followed by the normalised segments joined by "/". */
  function Normalized(path: string): string
  {
    "/" + Join(NormalizeSegments(PathSegments(path)), "/")
  }

  /** `_normalize_path`, as the loop that appends one normalised segment at a time. */
  method NormalizePath(path: string) returns (r: string)
    ensures r == Normalized(path)
  {
    var parts := Split(StripSet(path, {'/'}), '/');
    var normalized: seq<string> := [];
    var i := 0;
    while i < |parts|
      invariant 0 <= i <= |parts|
      invariant normalized == NormalizeSegments(parts[..i])
    {
      var part := parts[i];
      if IsIdSegment(part) {
        normalized := normalized + [IdPlaceholder];
      } else if IsUuidSegment(part) {
        normalized := normalized + [UuidPlaceholder];
      } else {
        normalized := normalized + [part];
      }
      i := i + 1;
    }
    assert parts[..i] == parts;
    r := "/" + Join(normalized, "/");
  }

  /** Neither placeholder looks like an id or a UUID, so a normalised segment normalises to itself. */
  lemma NormalizeSegmentIdempotent(p: string)
    ensures NormalizeSegment(NormalizeSegment(p)) == NormalizeSegment(p)
    ensures p != [] ==> NormalizeSegment(p) != []
    ensures '/' !in p ==> '/' !in NormalizeSegment(p)
  {
    assert !IsDigit(IdPlaceholder[0]) && IdPlaceholder[|IdPlaceholder| - 1] != '\n';
    assert !IsDigit(UuidPlaceholder[0]) && UuidPlaceholder[|UuidPlaceholder| - 1] != '\n';
  }

  /** The first piece of a split starts with the first character when that is not the separator. */
  lemma SplitFirstNonEmpty(s: string, c: char)
    requires s != [] && s[0] != c
    ensures Split(s, c)[0] != []
  {
  }

  /** The last piece of a split is non-empty when the string does not end in the separator. */
  lemma {:induction false} SplitLastNonEmpty(s: string, c: char)
    requires s != [] && s[|s| - 1] != c
    ensures Split(s, c)[|Split(s, c)| - 1] != []
    decreases |s|
  {
    if |s| > 1 {
      SplitLastNonEmpty(s[1..], c);
      assert s[1..][|s[1..]| - 1] == s[|s| - 1];
    }
  }

  /** A join begins with its first part and ends with its last part. */
  lemma {:induction false} JoinEnds(parts: seq<string>, sep: string)
    requires |parts| >= 1
    ensures StartsWith(Join(parts, sep), parts[0])
    ensures EndsWith(Join(parts, sep), parts[|parts| - 1])
    decreases |parts|
  {
    if |parts| > 1 {
      JoinEnds(parts[1..], sep);
      var rest := Join(parts[1..], sep);
      assert Join(parts, sep) == parts[0] + sep + rest;
      assert (parts[0] + sep + rest)[..|parts[0]|] == parts[0];
      assert (parts[0] + sep + rest)[|parts[0] + sep + rest| - |parts[|parts| - 1]|..]
        == rest[|rest| - |parts[1..][|parts[1..]| - 1]|..];
    }
  }

  /** One leading slash is stripped like any other. */
  lemma StripSlashPrefix(j: string)
    requires j != [] && j[0] != '/' && j[|j| - 1] != '/'
    ensures StripSet("/" + j, {'/'}) == j
  {
    assert ("/" + j)[1..] == j;
    assert StripLeftSet("/" + j, {'/'}) == StripLeftSet(j, {'/'});
    StripSetNoop(j, {'/'});
  }

  /** The segments of a normalised path are the normalised segments. */
  lemma SegmentsRoundTrip(path: string)
    ensures PathSegments(Normalized(path)) == NormalizeSegments(PathSegments(path))
  {
    var s := StripSet(path, {'/'});
    var parts := PathSegments(path);
    var segs := NormalizeSegments(parts);
    forall i | 0 <= i < |segs|
      ensures '/' !in segs[i]
    {
      NormalizeSegmentIdempotent(parts[i]);
    }
    if s == [] {
      assert parts == [[]];
      assert segs == [[]];
      assert StripSet("/", {'/'}) == [];
    } else {
      StripSetEnds(path, {'/'});
      SplitFirstNonEmpty(s, '/');
      SplitLastNonEmpty(s, '/');
      NormalizeSegmentIdempotent(parts[0]);
      NormalizeSegmentIdempotent(parts[|parts| - 1]);
      var j := Join(segs, "/");
      JoinEnds(segs, "/");
      assert j[0] == segs[0][0];
      assert j[|j| - 1] == segs[|segs| - 1][|segs[|segs| - 1]| - 1];
      StripSlashPrefix(j);
      SplitJoin(segs, '/');
    }
  }

  /** Normalising a normalised path changes nothing. */
  lemma NormalizeIdempotent(path: string)
    ensures Normalized(Normalized(path)) == Normalized(path)
  {
    var segs := NormalizeSegments(PathSegments(path));
    SegmentsRoundTrip(path);
    forall i | 0 <= i < |segs|
      ensures NormalizeSegment(segs[i]) == segs[i]
    {
      NormalizeSegmentIdempotent(PathSegments(path)[i]);
    }
    assert NormalizeSegments(segs) == segs;
  }

  /** Placeholders replace exactly the id and UUID segments; every other segment is kept, position by position. */
  lemma NormalizedSegments(path: string)
    ensures var parts := PathSegments(path);
      PathSegments(Normalized(path)) == NormalizeSegments(parts)
      && forall i :: 0 <= i < |parts| ==>
        (IsIdSegment(parts[i]) ==> NormalizeSegments(parts)[i] == IdPlaceholder)
        && (!IsIdSegment(parts[i]) && IsUuidSegment(parts[i]) ==> NormalizeSegments(parts)[i] == UuidPlaceholder)
        && (!IsIdSegment(parts[i]) && !IsUuidSegment(parts[i]) ==> NormalizeSegments(parts)[i] == parts[i])
  {
    SegmentsRoundTrip(path);
  }

  // ---------------------------------------------------------------- grouping

  /** The grouping key of an exchange: its method and its normalised path. */
  function Key(ex: HttpExchange): (string, string)
  {
    (ex.httpMethod, Normalized(ex.path))
  }

  function KeySeq(exs: seq<HttpExchange>): (r: seq<(string, string)>)
    ensures |r| == |exs| && forall j :: 0 <= j < |exs| ==> r[j] == Key(exs[j])
  {
    KeysOf(exs, Key)
  }

  /** The group keys in ascending (method, path) order, each once. */
  function GroupKeys(exs: seq<HttpExchange>): (r: seq<(string, string)>)
    ensures StrictlySorted(r, PairLt)
    ensures forall k :: k in r <==> exists j :: 0 <= j < |exs| && Key(exs[j]) == k
  {
    PairLtIsOrder();
    SortedSet(KeySeq(exs), PairLt)
  }

  /**
   * Grouping is a partition: the keys are ascending and distinct, every exchange's key is one of
   * them, every group is non-empty and holds only exchanges with its key, and the group sizes
   * add up to the number of exchanges, so each exchange lands in exactly one group.
   */
  lemma GroupingPartition(exs: seq<HttpExchange>)
    ensures var ks := GroupKeys(exs);
      StrictlySorted(ks, PairLt)
      && (forall i, j :: 0 <= i < j < |ks| ==> ks[i] != ks[j])
      && (forall j :: 0 <= j < |exs| ==> Key(exs[j]) in ks)
      && (forall e :: 0 <= e < |ks| ==> Group(exs, Key, ks[e]) != [])
      && (forall e, x :: 0 <= e < |ks| && x in Group(exs, Key, ks[e]) ==> x in exs && Key(x) == ks[e])
      && TotalSize(exs, Key, ks) == |exs|
  {
    var ks := GroupKeys(exs);
    PairLtIsOrder();
    StrictlySortedDistinct(ks, PairLt);
    TotalSizeCovers(exs, Key, ks);
    forall e | 0 <= e < |ks|
      ensures Group(exs, Key, ks[e]) != []
    {
      assert ks[e] in ks;
      var j :| 0 <= j < |exs| && Key(exs[j]) == ks[e];
      GroupNonEmpty(exs, Key, j);
    }
  }

  // ---------------------------------------------------------------- schema inference

  /**
   * `_infer_schema` over the first `n` entries of the dict `obj`: one entry per key whose value
   * is a string, bool, int, float, list, dict (recursively) or None, in the dict's order.
   */
  function SchemaOf(obj: Json, n: nat): Dict<SchemaValue>
    requires obj.JDict? && n <= |obj.fields|
    decreases obj, n
  {
    if n == 0 then []
    else
      var prev := SchemaOf(obj, n - 1);
      var key := obj.fields[n - 1].0;
      var v := obj.fields[n - 1].1;
      assert obj.fields[n - 1] in obj.fields;
      match v
      case JStr(_) => Put(prev, key, SString)
      case JBool(_) => Put(prev, key, SBoolean)
      case JInt(_) => Put(prev, key, SInteger)
      case JFloat(_) => Put(prev, key, SNumber)
      case JList(_) => Put(prev, key, SArray)
      case JDict(f) => Put(prev, key, SObject(SchemaOf(v, |f|)))
      case JNull => Put(prev, key, SNullable)
      case Other(_) => prev
  }

  /** The schema of a whole dict. */
  function InferredSchema(obj: Json): Dict<SchemaValue>
    requires obj.JDict?
  {
    SchemaOf(obj, |obj.fields|)
  }

  /** The schema entry a kept value gets. */
  function SchemaEntry(v: Json): SchemaValue
    requires !v.Other?
  {
    match v
    case JStr(_) => SString
    case JBool(_) => SBoolean
    case JInt(_) => SInteger
    case JFloat(_) => SNumber
    case JList(_) => SArray
    case JDict(f) => SObject(InferredSchema(v))
    case JNull => SNullable
  }

  /** One step of `SchemaOf`: the `n`-th entry is added unless its value is `Other`. */
  lemma SchemaOfStep(obj: Json, n: nat)
    requires obj.JDict? && 0 < n <= |obj.fields|
    ensures var v := obj.fields[n - 1].1;
      SchemaOf(obj, n) == if v.Other? then SchemaOf(obj, n - 1) else Put(SchemaOf(obj, n - 1), obj.fields[n - 1].0, SchemaEntry(v))
  {
  }

  /** The schema only has keys of the dict. */
  lemma {:induction false} SchemaOfKeys(obj: Json, n: nat)
    requires obj.JDict? && n <= |obj.fields|
    ensures forall k :: HasKey(SchemaOf(obj, n), k) ==> exists i :: 0 <= i < n && obj.fields[i].0 == k
    decreases n
  {
    if n > 0 {
      SchemaOfKeys(obj, n - 1);
      SchemaOfStep(obj, n);
      forall k | HasKey(SchemaOf(obj, n), k)
        ensures exists i :: 0 <= i < n && obj.fields[i].0 == k
      {
        if k != obj.fields[n - 1].0 {
          assert HasKey(SchemaOf(obj, n - 1), k);
        }
      }
    }
  }

  /** Over a dict with distinct keys, the `n`-th key is not yet in the schema of the entries before it. */
  lemma SchemaOfFresh(obj: Json, n: nat)
    requires obj.JDict? && 0 < n <= |obj.fields| && DistinctKeys(obj.fields)
    ensures !HasKey(SchemaOf(obj, n - 1), obj.fields[n - 1].0)
  {
    SchemaOfKeys(obj, n - 1);
    forall i | 0 <= i < n - 1
      ensures obj.fields[i].0 != obj.fields[n - 1].0
    {
    }
  }

  /**
   * Over a dict with distinct keys, every value that is not `Other` gets its entry under its
   * key (so a bool gets "boolean", never "integer").
   */
  lemma {:induction false} SchemaOfKept(obj: Json, n: nat)
    requires obj.JDict? && n <= |obj.fields| && DistinctKeys(obj.fields)
    ensures forall i :: 0 <= i < n && !obj.fields[i].1.Other? ==>
      Get(SchemaOf(obj, n), obj.fields[i].0) == Some(SchemaEntry(obj.fields[i].1))
    decreases n
  {
    if n > 0 {
      SchemaOfKept(obj, n - 1);
      SchemaOfStep(obj, n);
      var prev := SchemaOf(obj, n - 1);
      var key := obj.fields[n - 1].0;
      var v := obj.fields[n - 1].1;
      if !v.Other? {
        PutGet(prev, key, SchemaEntry(v));
        forall i | 0 <= i < n - 1
          ensures obj.fields[i].0 != key
        {
        }
      }
    }
  }

  /** Over a dict with distinct keys, a key whose value is `Other` is left out of the schema. */
  lemma {:induction false} SchemaOfDropped(obj: Json, n: nat)
    requires obj.JDict? && n <= |obj.fields| && DistinctKeys(obj.fields)
    ensures forall i :: 0 <= i < n && obj.fields[i].1.Other? ==> !HasKey(SchemaOf(obj, n), obj.fields[i].0)
    decreases n
  {
    if n > 0 {
      SchemaOfDropped(obj, n - 1);
      SchemaOfStep(obj, n);
      var prev := SchemaOf(obj, n - 1);
      var key := obj.fields[n - 1].0;
      var v := obj.fields[n - 1].1;
      forall i | 0 <= i < n && obj.fields[i].1.Other?
        ensures !HasKey(SchemaOf(obj, n), obj.fields[i].0)
      {
        if i == n - 1 {
          SchemaOfFresh(obj, n);
        } else {
          assert obj.fields[i].0 != key;
          if !v.Other? {
            PutHasKey(prev, key, SchemaEntry(v), obj.fields[i].0);
          }
        }
      }
    }
  }

  /** `_infer_schema`, as the loop that fills `schema` key by key and recurses into nested dicts. */
  method InferSchema(data: Json) returns (schema: Dict<SchemaValue>)
    requires data.JDict?
    ensures schema == InferredSchema(data)
    decreases data
  {
    schema := [];
    var i := 0;
    while i < |data.fields|
      invariant 0 <= i <= |data.fields|
      invariant schema == SchemaOf(data, i)
    {
      var key := data.fields[i].0;
      var value := data.fields[i].1;
      assert data.fields[i] in data.fields;
      SchemaOfStep(data, i + 1);
      var entry: Option<SchemaValue> := None;
      match value {
        case JStr(_) => entry := Some(SString);
        case JBool(_) => entry := Some(SBoolean);
        case JInt(_) => entry := Some(SInteger);
        case JFloat(_) => entry := Some(SNumber);
        case JList(_) => entry := Some(SArray);
        case JDict(_) =>
          var nested := InferSchema(value);
          entry := Some(SObject(nested));
        case JNull => entry := Some(SNullable);
        case Other(_) =>
      }
      assert entry == if value.Other? then None else Some(SchemaEntry(value));
      if entry.Some? {
        schema := Put(schema, key, entry.value);
      }
      i := i + 1;
    }
  }

  // ---------------------------------------------------------------- one endpoint

  /** `any(k.lower() == name for k in headers)` */
  predicate HasHeader(headers: Dict<string>, name: string)
  {
    exists i :: 0 <= i < |headers| && Lower(headers[i].0) == name
  }

  /** `next((v for k, v in headers.items() if k.lower() == name), None)` */
  function HeaderValue(headers: Dict<string>, name: string): (r: Option<string>)
    ensures r.None? <==> !HasHeader(headers, name)
    decreases |headers|
  {
    if headers == [] then None
    else if Lower(headers[0].0) == name then Some(headers[0].1)
    else
      assert HasHeader(headers, name) ==> HasHeader(headers[1..], name) by {
        if HasHeader(headers, name) {
          var i :| 0 <= i < |headers| && Lower(headers[i].0) == name;
          assert headers[1..][i - 1] == headers[i];
        }
      }
      assert HasHeader(headers[1..], name) ==> HasHeader(headers, name) by {
        if HasHeader(headers[1..], name) {
          var i :| 0 <= i < |headers[1..]| && Lower(headers[1..][i].0) == name;
          assert headers[i + 1] == headers[1..][i];
        }
      }
      HeaderValue(headers[1..], name)
  }

  /** The value of an exchange's Authorization header, "" when it has none. */
  function AuthValue(ex: HttpExchange): string
  {
    HeaderValue(ex.requestHeaders, "authorization").GetOr("")
  }

  /** `auth_required`: some exchange carries an Authorization header, in any letter case. */
  predicate AuthRequired(exs: seq<HttpExchange>)
  {
    exists j :: 0 <= j < |exs| && HasHeader(exs[j].requestHeaders, "authorization")
  }

  /** The kind of an Authorization value, by its scheme prefix. */
  function AuthKind(v: string): string
  {
    if StartsWith(v, "Bearer ") then "bearer"
    else if StartsWith(v, "Basic ") then "basic"
    else "custom"
  }

  /** The kind of the first non-empty Authorization value. */
  function FirstAuthType(exs: seq<HttpExchange>): Option<string>
    decreases |exs|
  {
    if exs == [] then None
    else if AuthValue(exs[0]) != [] then Some(AuthKind(AuthValue(exs[0])))
    else FirstAuthType(exs[1..])
  }

  /** `auth_type`: only looked for when auth is required. */
  function AuthTypeOf(exs: seq<HttpExchange>): Option<string>
  {
    if AuthRequired(exs) then FirstAuthType(exs) else None
  }

  lemma {:induction false} FirstAuthTypeAt(exs: seq<HttpExchange>, j: nat)
    requires j < |exs| && AuthValue(exs[j]) != []
    requires forall k :: 0 <= k < j ==> AuthValue(exs[k]) == []
    ensures FirstAuthType(exs) == Some(AuthKind(AuthValue(exs[j])))
    decreases j
  {
    if j > 0 {
      assert exs[1..][j - 1] == exs[j];
      assert forall k :: 0 <= k < j - 1 ==> exs[1..][k] == exs[k + 1];
      FirstAuthTypeAt(exs[1..], j - 1);
    }
  }

  lemma {:induction false} FirstAuthTypeNone(exs: seq<HttpExchange>)
    requires forall k :: 0 <= k < |exs| ==> AuthValue(exs[k]) == []
    ensures FirstAuthType(exs) == None
    decreases |exs|
  {
    if exs != [] {
      assert forall k :: 0 <= k < |exs| - 1 ==> exs[1..][k] == exs[k + 1];
      FirstAuthTypeNone(exs[1..]);
    }
  }

  /**
   * `auth_type` comes from the first exchange with a non-empty Authorization value ("Bearer "
   * gives bearer, "Basic " gives basic, anything else custom), and is None when there is none;
   * such a value makes auth required.
   */
  lemma AuthTypeIsFirst(exs: seq<HttpExchange>, j: nat)
    requires j < |exs| && AuthValue(exs[j]) != []
    requires forall k :: 0 <= k < j ==> AuthValue(exs[k]) == []
    ensures AuthRequired(exs)
    ensures AuthTypeOf(exs) == Some(AuthKind(AuthValue(exs[j])))
  {
    assert HasHeader(exs[j].requestHeaders, "authorization");
    FirstAuthTypeAt(exs, j);
  }

  lemma AuthTypeNone(exs: seq<HttpExchange>)
    requires forall k :: 0 <= k < |exs| ==> AuthValue(exs[k]) == []
    ensures AuthTypeOf(exs) == None
  {
    FirstAuthTypeNone(exs);
  }

  /** Every query key of every exchange, with repeats. */
  function AllQueryKeys(exs: seq<HttpExchange>): (r: seq<string>)
    ensures forall k :: k in r <==> exists j :: 0 <= j < |exs| && HasKey(exs[j].queryParams, k)
    decreases |exs|
  {
    if exs == [] then []
    else
      var n := |exs| - 1;
      var r := AllQueryKeys(exs[..n]) + Keys(exs[n].queryParams);
      assert forall j :: 0 <= j < n ==> exs[..n][j] == exs[j];
      r
  }

  /** `sorted(all_params)`: the sorted union of the query keys. */
  function QueryParamsOf(exs: seq<HttpExchange>): seq<string>
  {
    StrLtIsOrder();
    SortedSet(AllQueryKeys(exs), StrLt)
  }

  /** `observed_status_codes`: the sorted distinct status codes. */
  function StatusCodesOf(exs: seq<HttpExchange>): seq<int>
  {
    IntLtIsOrder();
    SortedSet(seq(|exs|, j requires 0 <= j < |exs| => exs[j].statusCode), IntLt)
  }

  /** The status codes and query keys of a group, each sorted ascending without repeats. */
  lemma EndpointListsSpec(exs: seq<HttpExchange>)
    ensures StrictlySorted(StatusCodesOf(exs), IntLt)
    ensures forall c :: c in StatusCodesOf(exs) <==> exists j :: 0 <= j < |exs| && exs[j].statusCode == c
    ensures StrictlySorted(QueryParamsOf(exs), StrLt)
    ensures forall k :: k in QueryParamsOf(exs) <==> exists j :: 0 <= j < |exs| && HasKey(exs[j].queryParams, k)
  {
    IntLtIsOrder();
    StrLtIsOrder();
    var codes := seq(|exs|, j requires 0 <= j < |exs| => exs[j].statusCode);
    forall c
      ensures c in codes <==> exists j :: 0 <= j < |exs| && exs[j].statusCode == c
    {
      if c in codes {
        var j :| 0 <= j < |codes| && codes[j] == c;
        assert exs[j].statusCode == c;
      }
      if exists j :: 0 <= j < |exs| && exs[j].statusCode == c {
        var j :| 0 <= j < |exs| && exs[j].statusCode == c;
        assert codes[j] == c;
      }
    }
  }

  /** `re.findall(r"\{(\w+)\}", path)`: the names of the `{name}` placeholders, left to right. */
  function PathParams(path: string): (r: seq<string>)
    ensures forall i :: 0 <= i < |r| ==> r[i] != [] && AllWordChars(r[i])
    decreases |path|
  {
    if path == [] then []
    else if path[0] == '{' then
      var w := TakeWord(path[1..]);
      if w != [] && |w| + 1 < |path| && path[|w| + 1] == '}' then [w] + PathParams(path[|w| + 2..])
      else PathParams(path[1..])
    else PathParams(path[1..])
  }

  /** A path without "{" has no path parameters. */
  lemma {:induction false} PathParamsNoBrace(path: string)
    requires '{' !in path
    ensures PathParams(path) == []
    decreases |path|
  {
    if path != [] {
      PathParamsNoBrace(path[1..]);
    }
  }

  /** A placeholder `{w}` yields `w`, then the search resumes after the closing brace. */
  lemma PathParamsPlaceholder(w: string, rest: string)
    requires w != [] && AllWordChars(w)
    ensures PathParams("{" + w + "}" + rest) == [w] + PathParams(rest)
  {
    var p := "{" + w + "}" + rest;
    assert p[1..] == w + ("}" + rest);
    assert TakeWord(p[1..]) == w by {
      assert ("}" + rest)[0] == '}';
      TakeWordPrefix(w, "}" + rest);
    }
    assert p[|w| + 2..] == rest;
  }

  /** The first JSON request with a dict body, inferred: `request_schema`. */
  function RequestSchemaOf(exs: seq<HttpExchange>): Option<Dict<SchemaValue>>
    decreases |exs|
  {
    if exs == [] then None
    else if IsJsonRequest(exs[0]) && exs[0].requestBody.JDict? then Some(InferredSchema(exs[0].requestBody))
    else RequestSchemaOf(exs[1..])
  }

  /**
   * (`sample_response`, `response_schema`): taken from the first JSON 2xx/3xx response only; the
   * schema exists only when that body is a dict.
   */
  function ResponseSampleOf(exs: seq<HttpExchange>): (Json, Option<Dict<SchemaValue>>)
    decreases |exs|
  {
    if exs == [] then (JNull, None)
    else if IsJsonResponse(exs[0]) && IsSuccess(exs[0]) then
      (exs[0].responseBody, if exs[0].responseBody.JDict? then Some(InferredSchema(exs[0].responseBody)) else None)
    else ResponseSampleOf(exs[1..])
  }

  /** `sample_request`: the first truthy request body. */
  function SampleRequestOf(exs: seq<HttpExchange>): Json
    decreases |exs|
  {
    if exs == [] then JNull
    else if Truthy(exs[0].requestBody) then exs[0].requestBody
    else SampleRequestOf(exs[1..])
  }

  /**
   * Schemas and samples are single samples: each comes from the first exchange that qualifies,
   * and the response search stops at the first JSON success even when its body is not a dict.
   */
  lemma {:induction false} SingleSamples(exs: seq<HttpExchange>, j: nat)
    requires j < |exs|
    ensures IsJsonRequest(exs[j]) && exs[j].requestBody.JDict?
      && (forall k :: 0 <= k < j ==> !(IsJsonRequest(exs[k]) && exs[k].requestBody.JDict?))
      ==> RequestSchemaOf(exs) == Some(InferredSchema(exs[j].requestBody))
    ensures IsJsonResponse(exs[j]) && IsSuccess(exs[j])
      && (forall k :: 0 <= k < j ==> !(IsJsonResponse(exs[k]) && IsSuccess(exs[k])))
      ==> (ResponseSampleOf(exs).0 == exs[j].responseBody
        && (ResponseSampleOf(exs).1.Some? <==> exs[j].responseBody.JDict?))
    ensures Truthy(exs[j].requestBody) && (forall k :: 0 <= k < j ==> !Truthy(exs[k].requestBody))
      ==> SampleRequestOf(exs) == exs[j].requestBody
    decreases j
  {
    if j > 0 {
      SingleSamples(exs[1..], j - 1);
      assert exs[1..][j - 1] == exs[j];
      assert forall k :: 0 <= k < j - 1 ==> exs[1..][k] == exs[k + 1];
    }
  }

  /** `_build_endpoint_info` */
  function EndpointInfoOf(httpMethod: string, path: string, exs: seq<HttpExchange>): (r: EndpointInfo)
    ensures r.httpMethod == httpMethod && r.path == path
  {
    var response := ResponseSampleOf(exs);
    EndpointInfo(
      httpMethod, path, "",
      RequestSchemaOf(exs), response.1,
      AuthRequired(exs), AuthTypeOf(exs),
      QueryParamsOf(exs), PathParams(path), StatusCodesOf(exs),
      SampleRequestOf(exs), response.0)
  }

  /** The `auth_type` search: the first exchange with a non-empty Authorization value decides. */
  method FindAuthType(exs: seq<HttpExchange>) returns (authType: Option<string>)
    ensures authType == FirstAuthType(exs)
  {
    authType := None;
    var i := 0;
    while i < |exs|
      invariant 0 <= i <= |exs|
      invariant FirstAuthType(exs[i..]) == FirstAuthType(exs)
    {
      var header := HeaderValue(exs[i].requestHeaders, "authorization");
      if header.Some? && header.value != [] {
        authType := Some(AuthKind(header.value));
        return;
      }
      assert exs[i..][1..] == exs[i + 1..];
      i := i + 1;
    }
  }

  /** `all_params.update(ex.query_params.keys())` for every exchange, then sorted. */
  method CollectQueryParams(exs: seq<HttpExchange>) returns (params: seq<string>)
    ensures params == QueryParamsOf(exs)
  {
    var allParams: seq<string> := [];
    var i := 0;
    while i < |exs|
      invariant 0 <= i <= |exs|
      invariant allParams == AllQueryKeys(exs[..i])
    {
      assert exs[..i + 1][..i] == exs[..i];
      allParams := allParams + Keys(exs[i].queryParams);
      i := i + 1;
    }
    assert exs[..i] == exs;
    StrLtIsOrder();
    params := SortedSet(allParams, StrLt);
  }

  /** The request-schema search: the first JSON request with a dict body. */
  method FindRequestSchema(exs: seq<HttpExchange>) returns (requestSchema: Option<Dict<SchemaValue>>)
    ensures requestSchema == RequestSchemaOf(exs)
  {
    requestSchema := None;
    var i := 0;
    while i < |exs|
      invariant 0 <= i <= |exs|
      invariant RequestSchemaOf(exs[i..]) == RequestSchemaOf(exs)
    {
      if IsJsonRequest(exs[i]) && exs[i].requestBody.JDict? {
        var schema := InferSchema(exs[i].requestBody);
        requestSchema := Some(schema);
        return;
      }
      assert exs[i..][1..] == exs[i + 1..];
      i := i + 1;
    }
  }

  /** The response search: stops at the first JSON success response. */
  method FindResponseSample(exs: seq<HttpExchange>) returns (sampleResponse: Json, responseSchema: Option<Dict<SchemaValue>>)
    ensures (sampleResponse, responseSchema) == ResponseSampleOf(exs)
  {
    responseSchema := None;
    sampleResponse := JNull;
    var i := 0;
    while i < |exs|
      invariant 0 <= i <= |exs|
      invariant ResponseSampleOf(exs[i..]) == ResponseSampleOf(exs)
    {
      if IsJsonResponse(exs[i]) && IsSuccess(exs[i]) {
        sampleResponse := exs[i].responseBody;
        if exs[i].responseBody.JDict? {
          var schema := InferSchema(exs[i].responseBody);
          responseSchema := Some(schema);
        }
        return;
      }
      assert exs[i..][1..] == exs[i + 1..];
      i := i + 1;
    }
  }

  /** The sample-request search: the first truthy request body. */
  method FindSampleRequest(exs: seq<HttpExchange>) returns (sampleRequest: Json)
    ensures sampleRequest == SampleRequestOf(exs)
  {
    sampleRequest := JNull;
    var i := 0;
    while i < |exs|
      invariant 0 <= i <= |exs|
      invariant SampleRequestOf(exs[i..]) == SampleRequestOf(exs)
    {
      if Truthy(exs[i].requestBody) {
        sampleRequest := exs[i].requestBody;
        return;
      }
      assert exs[i..][1..] == exs[i + 1..];
      i := i + 1;
    }
  }

  /** `_build_endpoint_info` */
  method BuildEndpointInfo(httpMethod: string, path: string, exs: seq<HttpExchange>) returns (info: EndpointInfo)
    ensures info == EndpointInfoOf(httpMethod, path, exs)
  {
    var statusCodes := StatusCodesOf(exs);
    var authRequired := AuthRequired(exs);
    var authType: Option<string> := None;
    if authRequired {
      authType := FindAuthType(exs);
    }
    var queryParams := CollectQueryParams(exs);
    var pathParams := PathParams(path);
    var requestSchema := FindRequestSchema(exs);
    var sampleResponse, responseSchema := FindResponseSample(exs);
    var sampleRequest := FindSampleRequest(exs);
    info := EndpointInfo(
      httpMethod, path, "",
      requestSchema, responseSchema,
      authRequired, authType,
      queryParams, pathParams, statusCodes,
      sampleRequest, sampleResponse);
  }

  // ---------------------------------------------------------------- dependencies

  /** `path.strip("/").split("/")[0]`, or "" for the root path. */
  function ResourceOf(path: string): string
  {
    if path == "/" then "" else PathSegments(path)[0]
  }

  /** The resource an endpoint belongs to. */
  function Resource(ep: EndpointInfo): string
  {
    ResourceOf(ep.path)
  }

  /** `f"{ep.method} {ep.path}"` */
  function Label(ep: EndpointInfo): string
  {
    ep.httpMethod + " " + ep.path
  }

  /** A POST endpoint without path parameters on a named resource creates that resource. */
  predicate IsCreator(ep: EndpointInfo)
  {
    ep.httpMethod == "POST" && ep.pathParams == [] && ResourceOf(ep.path) != []
  }

  /** `resource_creators`: each resource mapped to the label of its creator, the last one winning. */
  function Creators(eps: seq<EndpointInfo>): Dict<string>
  {
    Register(eps, IsCreator, Resource, Label)
  }

  /** An endpoint with path parameters whose resource has a creator. */
  function Dependent(creators: Dict<string>): EndpointInfo -> bool
  {
    (ep: EndpointInfo) => ep.pathParams != [] && HasKey(creators, ResourceOf(ep.path))
  }

  /** The one-element list naming the creator of an endpoint's resource. */
  function CreatorOf(creators: Dict<string>): EndpointInfo -> seq<string>
  {
    (ep: EndpointInfo) => [Get(creators, ResourceOf(ep.path)).GetOr("")]
  }

  /** `_detect_dependencies` */
  function Dependencies(eps: seq<EndpointInfo>): Dict<seq<string>>
  {
    var creators := Creators(eps);
    Register(eps, Dependent(creators), Label, CreatorOf(creators))
  }

  /** A resource has a creator exactly when some creating endpoint names it, and the creator is the last such. */
  lemma CreatorsSpec(eps: seq<EndpointInfo>, r: string)
    ensures HasKey(Creators(eps), r) <==> exists c :: 0 <= c < |eps| && IsCreator(eps[c]) && ResourceOf(eps[c].path) == r
    ensures HasKey(Creators(eps), r) ==>
      exists c :: IsLast(eps, IsCreator, Resource, c) && ResourceOf(eps[c].path) == r && Get(Creators(eps), r) == Some(Label(eps[c]))
  {
    RegisterHas(eps, IsCreator, Resource, Label, r);
    if HasKey(Creators(eps), r) {
      RegisterLast(eps, IsCreator, Resource, Label, r);
    }
  }

  /**
   * Every dependency entry belongs to an endpoint with path parameters and names, as its only
   * prerequisite, the last creating endpoint of the same resource, which is a different endpoint.
   */
  lemma DependencyEntry(eps: seq<EndpointInfo>, e: nat)
    requires e < |Dependencies(eps)|
    ensures exists i, c ::
      (0 <= i < |eps| && eps[i].pathParams != [] && i != c
      && IsLast(eps, IsCreator, Resource, c) && ResourceOf(eps[c].path) == ResourceOf(eps[i].path)
      && Dependencies(eps)[e] == (Label(eps[i]), [Label(eps[c])]))
  {
    var creators := Creators(eps);
    RegisterEntry(eps, Dependent(creators), Label, CreatorOf(creators), e);
    var i :| 0 <= i < |eps| && Dependent(creators)(eps[i])
      && Dependencies(eps)[e] == (Label(eps[i]), CreatorOf(creators)(eps[i]));
    CreatorsSpec(eps, ResourceOf(eps[i].path));
    var c :| IsLast(eps, IsCreator, Resource, c) && ResourceOf(eps[c].path) == ResourceOf(eps[i].path)
      && Get(creators, ResourceOf(eps[i].path)) == Some(Label(eps[c]));
    assert Dependencies(eps)[e] == (Label(eps[i]), [Label(eps[c])]);
  }

  /** Every endpoint with path parameters whose resource has a creating endpoint gets an entry. */
  lemma DependencyComplete(eps: seq<EndpointInfo>, i: nat, c: nat)
    requires i < |eps| && eps[i].pathParams != []
    requires c < |eps| && IsCreator(eps[c]) && ResourceOf(eps[c].path) == ResourceOf(eps[i].path)
    ensures HasKey(Dependencies(eps), Label(eps[i]))
  {
    var creators := Creators(eps);
    CreatorsSpec(eps, ResourceOf(eps[i].path));
    assert Dependent(creators)(eps[i]);
    RegisterHas(eps, Dependent(creators), Label, CreatorOf(creators), Label(eps[i]));
  }

  /** `_detect_dependencies`, as its two loops: collect the creators, then record the dependents. */
  method DetectDependencies(eps: seq<EndpointInfo>) returns (deps: Dict<seq<string>>)
    ensures deps == Dependencies(eps)
  {
    var creators: Dict<string> := [];
    var i := 0;
    while i < |eps|
      invariant 0 <= i <= |eps|
      invariant creators == Register(eps[..i], IsCreator, Resource, Label)
    {
      RegisterSnoc(eps, i, IsCreator, Resource, Label);
      var ep := eps[i];
      if ep.httpMethod == "POST" && ep.pathParams == [] {
        var resource := if ep.path != "/" then Split(StripSet(ep.path, {'/'}), '/')[0] else "";
        if resource != [] {
          creators := Put(creators, resource, ep.httpMethod + " " + ep.path);
        }
      }
      i := i + 1;
    }
    assert eps[..i] == eps;
    deps := [];
    i := 0;
    while i < |eps|
      invariant 0 <= i <= |eps|
      invariant deps == Register(eps[..i], Dependent(creators), Label, CreatorOf(creators))
    {
      RegisterSnoc(eps, i, Dependent(creators), Label, CreatorOf(creators));
      var ep := eps[i];
      if ep.pathParams != [] {
        var resource := if ep.path != "/" then Split(StripSet(ep.path, {'/'}), '/')[0] else "";
        var creator := Get(creators, resource);
        if creator.Some? {
          deps := Put(deps, ep.httpMethod + " " + ep.path, [creator.value]);
        }
      }
      i := i + 1;
    }
    assert eps[..i] == eps;
  }

  // ---------------------------------------------------------------- auth patterns

  const BearerToken: string := "Bearer token"
  const BasicAuth: string := "Basic auth"
  const CustomAuthHeader: string := "Custom auth header"
  const ApiKeyHeader: string := "API key header"
  const CookieSession: string := "Cookie-based session"

  /** The pattern one request header reveals, if any. */
  function HeaderPattern(h: (string, string)): Option<string>
  {
    if Lower(h.0) == "authorization" then
      if StartsWith(h.1, "Bearer ") then Some(BearerToken)
      else if StartsWith(h.1, "Basic ") then Some(BasicAuth)
      else Some(CustomAuthHeader)
    else if Lower(h.0) == "x-api-key" then Some(ApiKeyHeader)
    else None
  }

  /**
   * An Authorization header (in any letter case) reveals a bearer token, basic auth or a custom
   * scheme by its value's prefix; an X-Api-Key header reveals an API key; no other header reveals anything.
   */
  lemma HeaderPatternCases(h: (string, string))
    ensures HeaderPattern(h) == Some(BearerToken) <==> Lower(h.0) == "authorization" && StartsWith(h.1, "Bearer ")
    ensures HeaderPattern(h) == Some(BasicAuth)
      <==> Lower(h.0) == "authorization" && !StartsWith(h.1, "Bearer ") && StartsWith(h.1, "Basic ")
    ensures HeaderPattern(h) == Some(CustomAuthHeader)
      <==> Lower(h.0) == "authorization" && !StartsWith(h.1, "Bearer ") && !StartsWith(h.1, "Basic ")
    ensures HeaderPattern(h) == Some(ApiKeyHeader) <==> Lower(h.0) == "x-api-key"
    ensures HeaderPattern(h).None? <==> Lower(h.0) != "authorization" && Lower(h.0) != "x-api-key"
    ensures HeaderPattern(h) != Some(CookieSession)
  {
  }

  /** The patterns the headers reveal, in header order, with repeats. */
  function HeaderPatterns(hs: Dict<string>): seq<string>
    decreases |hs|
  {
    if hs == [] then []
    else
      var n := |hs| - 1;
      HeaderPatterns(hs[..n]) + (match HeaderPattern(hs[n]) case Some(p) => [p] case None => [])
  }

  /** A pattern is listed exactly when some header reveals it. */
  lemma {:induction false} HeaderPatternsMember(hs: Dict<string>, p: string)
    ensures p in HeaderPatterns(hs) <==> exists j :: 0 <= j < |hs| && HeaderPattern(hs[j]) == Some(p)
    decreases |hs|
  {
    if hs != [] {
      var n := |hs| - 1;
      HeaderPatternsMember(hs[..n], p);
      assert forall j :: 0 <= j < n ==> hs[..n][j] == hs[j];
    }
  }

  /** The patterns one exchange reveals: its headers', then a cookie session when it sends a Cookie header. */
  function ExchangePatterns(ex: HttpExchange): seq<string>
  {
    HeaderPatterns(ex.requestHeaders) + (if HasHeader(ex.requestHeaders, "cookie") then [CookieSession] else [])
  }

  /** The patterns all exchanges reveal, in traffic order, with repeats. */
  function AllPatterns(exs: seq<HttpExchange>): seq<string>
    decreases |exs|
  {
    if exs == [] then []
    else
      var n := |exs| - 1;
      AllPatterns(exs[..n]) + ExchangePatterns(exs[n])
  }

  /** A pattern is listed exactly when some exchange reveals it. */
  lemma {:induction false} AllPatternsMember(exs: seq<HttpExchange>, p: string)
    ensures p in AllPatterns(exs) <==> exists i :: 0 <= i < |exs| && p in ExchangePatterns(exs[i])
    decreases |exs|
  {
    if exs != [] {
      var n := |exs| - 1;
      var prefix := exs[..n];
      AllPatternsMember(prefix, p);
      if p in AllPatterns(prefix) {
        var i :| 0 <= i < n && p in ExchangePatterns(prefix[i]);
        assert prefix[i] == exs[i];
      } else if p !in ExchangePatterns(exs[n]) {
        forall i | 0 <= i < |exs|
          ensures p !in ExchangePatterns(exs[i])
        {
          if i < n {
            assert prefix[i] == exs[i];
          }
        }
      }
    }
  }

  /** `_detect_auth_patterns`: `sorted(patterns)` */
  function AuthPatterns(exs: seq<HttpExchange>): (r: seq<string>)
    ensures StrictlySorted(r, StrLt)
  {
    StrLtIsOrder();
    SortedSet(AllPatterns(exs), StrLt)
  }

  /**
   * The detected patterns are ascending and without repeats; a pattern is detected exactly when
   * some request carries a header revealing it, or, for a cookie session, some request sends a
   * Cookie header; and every pattern is one of the five labels.
   */
  lemma AuthPatternsSpec(exs: seq<HttpExchange>, p: string)
    ensures forall i, j :: 0 <= i < j < |AuthPatterns(exs)| ==> AuthPatterns(exs)[i] != AuthPatterns(exs)[j]
    ensures p in AuthPatterns(exs) <==>
      exists i :: 0 <= i < |exs| &&
        ((exists j :: 0 <= j < |exs[i].requestHeaders| && HeaderPattern(exs[i].requestHeaders[j]) == Some(p))
         || (p == CookieSession && HasHeader(exs[i].requestHeaders, "cookie")))
    ensures p in AuthPatterns(exs) ==> p in {BearerToken, BasicAuth, CustomAuthHeader, ApiKeyHeader, CookieSession}
  {
    StrLtIsOrder();
    StrictlySortedDistinct(AuthPatterns(exs), StrLt);
    AllPatternsMember(exs, p);
    forall i | 0 <= i < |exs|
      ensures p in ExchangePatterns(exs[i]) <==>
        (exists j :: 0 <= j < |exs[i].requestHeaders| && HeaderPattern(exs[i].requestHeaders[j]) == Some(p))
        || (p == CookieSession && HasHeader(exs[i].requestHeaders, "cookie"))
    {
      HeaderPatternsMember(exs[i].requestHeaders, p);
    }
    if p in AuthPatterns(exs) {
      var i :| 0 <= i < |exs| && p in ExchangePatterns(exs[i]);
      if p != CookieSession || !HasHeader(exs[i].requestHeaders, "cookie") {
        var j :| 0 <= j < |exs[i].requestHeaders| && HeaderPattern(exs[i].requestHeaders[j]) == Some(p);
        HeaderPatternCases(exs[i].requestHeaders[j]);
      }
    }
  }

  /** `_detect_auth_patterns`: a loop over exchanges and their headers filling a set, then sorted. */
  method DetectAuthPatterns(exs: seq<HttpExchange>) returns (patterns: seq<string>)
    ensures patterns == AuthPatterns(exs)
  {
    var found: seq<string> := [];
    var i := 0;
    while i < |exs|
      invariant 0 <= i <= |exs|
      invariant found == AllPatterns(exs[..i])
    {
      assert exs[..i + 1][..i] == exs[..i];
      found := ScanHeaders(exs[i].requestHeaders, found);
      if exists k :: 0 <= k < |exs[i].requestHeaders| && Lower(exs[i].requestHeaders[k].0) == "cookie" {
        found := found + [CookieSession];
      }
      i := i + 1;
    }
    assert exs[..i] == exs;
    StrLtIsOrder();
    patterns := SortedSet(found, StrLt);
  }

  /** The inner loop of `_detect_auth_patterns` over one request's headers. */
  method ScanHeaders(hs: Dict<string>, found: seq<string>) returns (r: seq<string>)
    ensures r == found + HeaderPatterns(hs)
  {
    r := found;
    var j := 0;
    while j < |hs|
      invariant 0 <= j <= |hs|
      invariant r == found + HeaderPatterns(hs[..j])
    {
      assert hs[..j + 1][..j] == hs[..j];
      var key := Lower(hs[j].0);
      var value := hs[j].1;
      if key == "authorization" {
        if StartsWith(value, "Bearer ") {
          r := r + [BearerToken];
        } else if StartsWith(value, "Basic ") {
          r := r + [BasicAuth];
        } else {
          r := r + [CustomAuthHeader];
        }
      } else if key == "x-api-key" {
        r := r + [ApiKeyHeader];
      }
      j := j + 1;
    }
    assert hs[..j] == hs;
  }

  // ---------------------------------------------------------------- common headers

  /** Headers never reported as common. */
  const SkipHeaders: set<string> := {
    "host", "user-agent", "accept", "accept-encoding", "accept-language",
    "connection", "content-length", "content-type", "cookie", "authorization"}

  function AnyEntry(h: (string, string)): bool { true }

  function LowerName(h: (string, string)): string { Lower(h.0) }

  function EntryKey(h: (string, string)): string { h.0 }

  function EntryValue(h: (string, string)): string { h.1 }

  /** `{k.lower(): v for k, v in headers.items()}` */
  function LoweredHeaders(hs: Dict<string>): Dict<string>
  {
    Register(hs, AnyEntry, LowerName, EntryValue)
  }

  /** A header name is kept when it is not skipped and every request sends it, in any letter case. */
  function SharedBy(exs: seq<HttpExchange>): ((string, string)) -> bool
  {
    (h: (string, string)) => h.0 !in SkipHeaders && forall j :: 0 <= j < |exs| ==> HasHeader(exs[j].requestHeaders, h.0)
  }

  /** `_detect_common_headers` */
  function CommonHeaders(exs: seq<HttpExchange>): Dict<string>
  {
    if exs == [] then [] else Register(LoweredHeaders(exs[0].requestHeaders), SharedBy(exs), EntryKey, EntryValue)
  }

  /**
   * Lower-casing the header names keeps one entry per lower-cased name, holding the value of
   * the last header with that name.
   */
  lemma LoweredHeadersSpec(hs: Dict<string>, name: string)
    ensures HasKey(LoweredHeaders(hs), name) <==> HasHeader(hs, name)
    ensures HasKey(LoweredHeaders(hs), name) ==>
      exists c :: IsLast(hs, AnyEntry, LowerName, c) && Lower(hs[c].0) == name && Get(LoweredHeaders(hs), name) == Some(hs[c].1)
    ensures DistinctKeys(LoweredHeaders(hs))
  {
    RegisterHas(hs, AnyEntry, LowerName, EntryValue, name);
    RegisterDistinct(hs, AnyEntry, LowerName, EntryValue);
    if HasKey(LoweredHeaders(hs), name) {
      RegisterLast(hs, AnyEntry, LowerName, EntryValue, name);
    }
  }

  /**
   * A lower-cased header name is common exactly when there is traffic, the name is not skipped
   * and every request sends it; its value is the first request's value for it.
   */
  lemma CommonHeadersSpec(exs: seq<HttpExchange>, name: string)
    ensures HasKey(CommonHeaders(exs), name) <==>
      exs != [] && name !in SkipHeaders && forall j :: 0 <= j < |exs| ==> HasHeader(exs[j].requestHeaders, name)
    ensures HasKey(CommonHeaders(exs), name) ==>
      Get(CommonHeaders(exs), name) == Get(LoweredHeaders(exs[0].requestHeaders), name)
  {
    if exs != [] {
      var first := LoweredHeaders(exs[0].requestHeaders);
      LoweredHeadersSpec(exs[0].requestHeaders, name);
      RegisterHas(first, SharedBy(exs), EntryKey, EntryValue, name);
      if name !in SkipHeaders && forall j :: 0 <= j < |exs| ==> HasHeader(exs[j].requestHeaders, name) {
        var i :| 0 <= i < |first| && first[i] == (name, Get(first, name).value);
        assert SharedBy(exs)(first[i]);
      }
      if HasKey(CommonHeaders(exs), name) {
        var c := LastWitness(first, SharedBy(exs), EntryKey, EntryValue, name);
        GetAt(first, c);
      }
    }
  }

  /** `_detect_common_headers`: lower-case the first request's headers, then keep the shared ones. */
  method DetectCommonHeaders(exs: seq<HttpExchange>) returns (common: Dict<string>)
    ensures common == CommonHeaders(exs)
  {
    if exs == [] {
      return [];
    }
    var firstHeaders := LowerHeaderNames(exs[0].requestHeaders);
    common := [];
    var i := 0;
    while i < |firstHeaders|
      invariant 0 <= i <= |firstHeaders|
      invariant common == Register(firstHeaders[..i], SharedBy(exs), EntryKey, EntryValue)
    {
      RegisterSnoc(firstHeaders, i, SharedBy(exs), EntryKey, EntryValue);
      var header := firstHeaders[i].0;
      var value := firstHeaders[i].1;
      if header !in SkipHeaders {
        var all := SentByAll(exs, header);
        if all {
          common := Put(common, header, value);
        }
      }
      i := i + 1;
    }
    assert firstHeaders[..i] == firstHeaders;
  }

  /** The dict comprehension lower-casing header names. */
  method LowerHeaderNames(hs: Dict<string>) returns (r: Dict<string>)
    ensures r == LoweredHeaders(hs)
  {
    r := [];
    var i := 0;
    while i < |hs|
      invariant 0 <= i <= |hs|
      invariant r == Register(hs[..i], AnyEntry, LowerName, EntryValue)
    {
      RegisterSnoc(hs, i, AnyEntry, LowerName, EntryValue);
      r := Put(r, Lower(hs[i].0), hs[i].1);
      i := i + 1;
    }
    assert hs[..i] == hs;
  }

  /** `all(any(k.lower() == header for k in ex.request_headers) for ex in exchanges)`, stopping at the first miss. */
  method SentByAll(exs: seq<HttpExchange>, header: string) returns (all: bool)
    ensures all <==> forall j :: 0 <= j < |exs| ==> HasHeader(exs[j].requestHeaders, header)
  {
    var j := 0;
    while j < |exs|
      invariant 0 <= j <= |exs|
      invariant forall j' :: 0 <= j' < j ==> HasHeader(exs[j'].requestHeaders, header)
    {
      var found := false;
      var k := 0;
      while k < |exs[j].requestHeaders| && !found
        invariant 0 <= k <= |exs[j].requestHeaders|
        invariant found <==> exists k' :: 0 <= k' < k && Lower(exs[j].requestHeaders[k'].0) == header
      {
        found := Lower(exs[j].requestHeaders[k].0) == header;
        k := k + 1;
      }
      if !found {
        return false;
      }
      j := j + 1;
    }
    return true;
  }

  // ---------------------------------------------------------------- the whole map

  /** One endpoint per group, in ascending (method, path) order. */
  function EndpointsOf(exs: seq<HttpExchange>): (r: seq<EndpointInfo>)
    ensures |r| == |GroupKeys(exs)|
  {
    EndpointsFor(exs, GroupKeys(exs))
  }

  /** The endpoint of each of the keys `ks`, built from that key's group. */
  function EndpointsFor(exs: seq<HttpExchange>, ks: seq<(string, string)>): (r: seq<EndpointInfo>)
    ensures |r| == |ks|
  {
    seq(|ks|, e requires 0 <= e < |ks| => EndpointInfoOf(ks[e].0, ks[e].1, Group(exs, Key, ks[e])))
  }

  /** `MapperAgent.run` */
  function EndpointMapOf(record: InteractionRecord): EndpointMap
  {
    var exs := record.httpExchanges;
    var eps := EndpointsOf(exs);
    EndpointMap(record.appName, record.baseUrl, eps, AuthPatterns(exs), CommonHeaders(exs), Dependencies(eps))
  }

  /** The (method, path) pair of each endpoint. */
  function EndpointKeys(eps: seq<EndpointInfo>): (r: seq<(string, string)>)
    ensures |r| == |eps|
  {
    seq(|eps|, e requires 0 <= e < |eps| => (eps[e].httpMethod, eps[e].path))
  }

  /**
   * The map holds exactly one endpoint per distinct (method, normalised path) of the traffic, in
   * ascending order (the keys `GroupKeys` characterises), and never more endpoints than exchanges.
   */
  lemma EndpointsSpec(exs: seq<HttpExchange>)
    ensures EndpointKeys(EndpointsOf(exs)) == GroupKeys(exs)
    ensures |EndpointsOf(exs)| <= |exs|
  {
    GroupKeysBound(exs);
  }

  /** There are never more group keys than exchanges. */
  lemma GroupKeysBound(exs: seq<HttpExchange>)
    ensures |GroupKeys(exs)| <= |exs|
  {
    GroupingPartition(exs);
    var ks := GroupKeys(exs);
    assert forall e :: 0 <= e < |ks| ==> |Group(exs, Key, ks[e])| >= 1;
    TotalSizeAtLeastCount(exs, Key, ks);
  }

  /** `MapperAgent.run`: group the exchanges in a dict, build one endpoint per sorted key, then the cross-endpoint findings. */
  method Run(record: InteractionRecord) returns (m: EndpointMap)
    ensures m == EndpointMapOf(record)
  {
    var exchanges := record.httpExchanges;
    var grouped, keys := GroupExchanges(exchanges);
    var endpoints := BuildEndpoints(exchanges, grouped, keys);
    var dependencies := DetectDependencies(endpoints);
    var authPatterns := DetectAuthPatterns(exchanges);
    var commonHeaders := DetectCommonHeaders(exchanges);
    m := EndpointMap(record.appName, record.baseUrl, endpoints, authPatterns, commonHeaders, dependencies);
  }


  /** The endpoint loop of `run`: one endpoint per sorted key, from that key's group. */
  method BuildEndpoints(exs: seq<HttpExchange>, grouped: map<(string, string), seq<HttpExchange>>, keys: seq<(string, string)>)
    returns (endpoints: seq<EndpointInfo>)
    requires forall k :: k in keys ==> k in grouped && grouped[k] == Group(exs, Key, k)
    ensures endpoints == EndpointsFor(exs, keys)
  {
    ghost var spec := EndpointsFor(exs, keys);
    endpoints := [];
    var e := 0;
    while e < |keys|
      invariant 0 <= e <= |keys|
      invariant endpoints == spec[..e]
    {
      var key := keys[e];
      assert key in keys;
      var group := grouped[key];
      var endpoint := BuildEndpointInfo(key.0, key.1, group);
      assert endpoint == spec[e];
      assert spec[..e + 1] == spec[..e] + [spec[e]];
      endpoints := endpoints + [endpoint];
      e := e + 1;
    }
    assert spec[..e] == spec;
  }

  /**
   * The grouping loop of `run` and the sorting of its keys. `Key` is the normalisation that
   * `NormalizePath` computes, applied to each exchange's path.
   */
  method GroupExchanges(exs: seq<HttpExchange>) returns (grouped: map<(string, string), seq<HttpExchange>>, keys: seq<(string, string)>)
    ensures keys == GroupKeys(exs)
    ensures forall k :: k in keys ==> k in grouped && grouped[k] == Group(exs, Key, k)
  {
    var seen;
    grouped, seen := GroupBy(exs, Key);
    PairLtIsOrder();
    keys := SortedSet(seen, PairLt);
    SortedSetOnlyElements(seen, KeySeq(exs), PairLt);
  }
}
