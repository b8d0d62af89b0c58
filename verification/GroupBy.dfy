/**
 Meter group-by keys: how a dimension name becomes an OpenMeter group-by key and a JSONPath,
 and what a filter on that key reads from a usage event.
 */
module GroupBy {
  import opened Common

  predicate IsLetter(c: char) {
    'a' <= c <= 'z' || 'A' <= c <= 'Z'
  }

  predicate IsWord(c: char) {
    c == '_' || IsDigit(c) || IsLetter(c)
  }

  /** `^[a-zA-Z_][0-9a-zA-Z_]*$` */
  predicate IsIdentifier(s: string) {
    s != "" && !IsDigit(s[0]) && forall i :: 0 <= i < |s| ==> IsWord(s[i])
  }

  /** `^[0-9A-Za-z_\-/:][0-9A-Za-z_.\-/:]*$` */
  predicate IsQuotable(s: string) {
    s != "" && s[0] != '.' && forall i :: 0 <= i < |s| ==> IsWord(s[i]) || s[i] in "-/:."
  }

  const RESERVED: set<string> := {"subject", "customer_id"}
  const DIMENSION_PREFIX := "dim_"
  const DATA_PREFIX := "$.dimensions."
  const QUOTE := "\""

  function WordsOnly(s: string): (r: string)
    ensures |r| == |s|
    ensures forall i :: 0 <= i < |s| ==> r[i] == if IsWord(s[i]) then s[i] else '_'
  {
    seq(|s|, i requires 0 <= i < |s| => if IsWord(s[i]) then s[i] else '_')
  }

  function GroupByKey(dimension: string): (key: string)
    ensures IsIdentifier(key)
    ensures IsIdentifier(dimension) && dimension !in RESERVED ==> key == dimension
    ensures dimension in RESERVED ==> key !in RESERVED
    ensures !IsIdentifier(dimension) ==>
      var start := if dimension == "" || IsDigit(dimension[0]) then |DIMENSION_PREFIX| else 0;
      |key| == start + |dimension| && key[..start] == DIMENSION_PREFIX[..start] && RewritesTo(dimension, key[start..])
  {
    if IsIdentifier(dimension) then
      if dimension !in RESERVED then dimension else DIMENSION_PREFIX + dimension
    else
      var key := WordsOnly(dimension);
      assert RewritesTo(dimension, key) && (DIMENSION_PREFIX + key)[|DIMENSION_PREFIX|..] == key;
      if key == "" || IsDigit(key[0]) then DIMENSION_PREFIX + key else key
  }

  function DimensionJSONPath(dimension: string): (path: Option<string>)
    ensures path.Some? <==> IsIdentifier(dimension) || IsQuotable(dimension)
    ensures path.Some? ==> DATA_PREFIX <= path.value && Member(path.value) == Some(dimension)
  {
    if IsIdentifier(dimension) then
      PlainMember(dimension);
      Some(DATA_PREFIX + dimension)
    else if IsQuotable(dimension) then
      QuotedMember(dimension);
      Some(DATA_PREFIX + QUOTE + dimension + QUOTE)
    else None
  }

  /**
   The member of `dimensions` a group-by path addresses, if it is one: a quoted name that needs no escape, holds no
   index and does not start with a dot, or a plain identifier. An unquoted dot leads on into a nested member.
   */
  function Member(path: string): Option<string>
    requires DATA_PREFIX <= path
  {
    var rest := path[|DATA_PREFIX|..];
    if |rest| >= 2 && rest[0] == '"' && rest[|rest| - 1] == '"' then
      var name := rest[1..|rest| - 1];
      if name != "" && name[0] != '.' && forall c :: c in name ==> c !in "\"[]" then Some(name) else None
    else if IsIdentifier(rest) then Some(rest)
    else None
  }

  lemma PlainMember(dimension: string)
    requires IsIdentifier(dimension)
    ensures DATA_PREFIX <= DATA_PREFIX + dimension && Member(DATA_PREFIX + dimension) == Some(dimension)
  {
    assert (DATA_PREFIX + dimension)[|DATA_PREFIX|..] == dimension;
  }

  lemma QuotedMember(dimension: string)
    requires IsQuotable(dimension)
    ensures DATA_PREFIX <= DATA_PREFIX + QUOTE + dimension + QUOTE
    ensures Member(DATA_PREFIX + QUOTE + dimension + QUOTE) == Some(dimension)
  {
    var quoted := QUOTE + dimension + QUOTE;
    assert DATA_PREFIX + QUOTE + dimension + QUOTE == DATA_PREFIX + quoted;
    assert (DATA_PREFIX + quoted)[|DATA_PREFIX|..] == quoted && quoted[1..|quoted| - 1] == dimension;
  }

  datatype GroupByError =
    | EmptyDimension
    | SameKey(first: string, second: string)
    | NoPath(dimension: string)

  ghost function Names(dimensions: seq<string>): set<string> {
    set d | d in dimensions
  }

  lemma NamesStep(dimensions: seq<string>, i: nat)
    requires i < |dimensions|
    ensures Names(dimensions[..i + 1]) == Names(dimensions[..i]) + {dimensions[i]}
  {
    assert dimensions[..i + 1] == dimensions[..i] + [dimensions[i]];
  }

  /** Every name is usable and different names get different keys. */
  ghost predicate Groupable(dimensions: set<string>) {
    && (forall d :: d in dimensions ==> d != "" && DimensionJSONPath(d).Some?)
    && (forall d, e :: d in dimensions && e in dimensions && GroupByKey(d) == GroupByKey(e) ==> d == e)
  }

  /** groupBy sends the key of each dimension, and no other key, to the path of that dimension. */
  ghost predicate Groups(groupBy: map<string, string>, dimensions: set<string>) {
    && groupBy.Keys == (set d | d in dimensions :: GroupByKey(d))
    && (forall d :: d in dimensions ==> DimensionJSONPath(d) == Some(groupBy[GroupByKey(d)]))
  }

  lemma GroupableNew(groupBy: map<string, string>, done: set<string>, dim: string)
    requires Groupable(done) && Groups(groupBy, done)
    requires dim != "" && GroupByKey(dim) !in groupBy && DimensionJSONPath(dim).Some?
    ensures Groupable(done + {dim})
  {
    forall d | d in done ensures GroupByKey(d) != GroupByKey(dim) {
      assert GroupByKey(d) in groupBy.Keys;
    }
  }

  lemma GroupsNew(groupBy: map<string, string>, done: set<string>, dim: string, path: string)
    requires Groups(groupBy, done) && GroupByKey(dim) !in groupBy && DimensionJSONPath(dim) == Some(path)
    ensures Groups(groupBy[GroupByKey(dim) := path], done + {dim})
  {
    forall d | d in done ensures GroupByKey(d) != GroupByKey(dim) {
      assert GroupByKey(d) in groupBy.Keys;
    }
  }

  /** What MeterGroupBy has built for the names done so far; owner remembers which name claimed a key. */
  ghost predicate GroupedSoFar(groupBy: map<string, string>, owner: map<string, string>, done: set<string>) {
    Groupable(done) && Groups(groupBy, done) && owner.Keys == groupBy.Keys && Owned(owner, done)
  }

  ghost predicate Owned(owner: map<string, string>, done: set<string>) {
    forall key :: key in owner ==> owner[key] in done && GroupByKey(owner[key]) == key
  }

  lemma OwnedNew(owner: map<string, string>, done: set<string>, dim: string)
    requires Owned(owner, done)
    ensures Owned(owner[GroupByKey(dim) := dim], done + {dim})
  {
  }

  lemma GroupedNew(groupBy: map<string, string>, owner: map<string, string>, done: set<string>, dim: string,
                   path: string)
    requires GroupedSoFar(groupBy, owner, done) && dim != "" && GroupByKey(dim) !in owner
    requires DimensionJSONPath(dim) == Some(path)
    ensures GroupedSoFar(groupBy[GroupByKey(dim) := path], owner[GroupByKey(dim) := dim], done + {dim})
  {
    GroupableNew(groupBy, done, dim);
    GroupsNew(groupBy, done, dim, path);
    OwnedNew(owner, done, dim);
  }

  /** Why dim cannot join the names done so far. */
  ghost predicate Spoils(done: set<string>, dim: string, error: GroupByError) {
    match error
    case EmptyDimension => dim == ""
    case NoPath(d) => d == dim && DimensionJSONPath(dim).None?
    case SameKey(first, second) =>
      first in done && second == dim && first != dim && GroupByKey(first) == GroupByKey(dim)
  }

  /** A name that cannot be used, alone or beside another, spoils the whole list. */
  lemma NotGroupable(all: set<string>, done: set<string>, dim: string, error: GroupByError)
    requires done <= all && dim in all && Spoils(done, dim, error)
    ensures !Groupable(all)
  {
  }

  /** A name that owns its key has been seen before. */
  lemma SeenBefore(owner: map<string, string>, done: set<string>, dim: string)
    requires Owned(owner, done) && GroupByKey(dim) in owner && owner[GroupByKey(dim)] == dim
    ensures done + {dim} == done
  {
    OwnerIsDone(owner, done, GroupByKey(dim));
  }

  lemma OwnerIsDone(owner: map<string, string>, done: set<string>, key: string)
    requires Owned(owner, done) && key in owner
    ensures owner[key] in done && GroupByKey(owner[key]) == key
  {
  }

  /** One turn of the loop: the path to add under the name's key, if it is new. */
  method NextDimension(owner: map<string, string>, ghost done: set<string>, dim: string)
    returns (error: Option<GroupByError>, path: Option<string>)
    requires Owned(owner, done)
    ensures error.Some? ==> Spoils(done, dim, error.value)
    ensures error.None? && path.None? ==> GroupByKey(dim) in owner && owner[GroupByKey(dim)] == dim
    ensures error.None? && path.Some? ==>
      dim != "" && GroupByKey(dim) !in owner && DimensionJSONPath(dim) == path
  {
    error, path := None, None;
    if dim == "" {
      return Some(EmptyDimension), None;
    }
    var key := GroupByKey(dim);
    if key in owner {
      OwnerIsDone(owner, done, key);
      if owner[key] != dim {
        error := Some(SameKey(owner[key], dim));
      }
      return;
    }
    path := DimensionJSONPath(dim);
    if path.None? {
      error := Some(NoPath(dim));
    }
  }

  method MeterGroupBy(dimensions: seq<string>) returns (r: Result<map<string, string>, GroupByError>)
    ensures r.Ok? <==> Groupable(Names(dimensions))
    ensures r.Ok? ==> Groups(r.value, Names(dimensions))
    ensures r.Err? ==> exists dim :: dim in dimensions && Spoils(Names(dimensions), dim, r.error)
  {
    var groupBy: map<string, string> := map[];
    var owner: map<string, string> := map[];
    for i := 0 to |dimensions|
      invariant Names(dimensions[..i]) <= Names(dimensions)
      invariant GroupedSoFar(groupBy, owner, Names(dimensions[..i]))
    {
      var dim := dimensions[i];
      ghost var done := Names(dimensions[..i]);
      NamesStep(dimensions, i);
      var error, path := NextDimension(owner, done, dim);
      if error.Some? {
        NotGroupable(Names(dimensions), done, dim, error.value);
        assert Spoils(Names(dimensions), dim, error.value);
        return Err(error.value);
      }
      if path.None? {
        SeenBefore(owner, done, dim);
      } else {
        GroupedNew(groupBy, owner, done, dim, path.value);
        var key := GroupByKey(dim);
        owner, groupBy := owner[key := dim], groupBy[key := path.value];
      }
    }
    assert dimensions[..|dimensions|] == dimensions;
    r := Ok(groupBy);
  }

  /** A usage event as OpenMeter stores it. */
  datatype Event = Event(meterName: string, subject: string, customerId: string,
                         dimensions: map<string, string>, value: real)

  /** The event's value for a dimension; a missing dimension reads as "". */
  function DimensionValue(ev: Event, dimension: string): string {
    if dimension in ev.dimensions then ev.dimensions[dimension] else ""
  }

  /** What OpenMeter reads for a group-by key: two reserved names are columns, others follow their path. */
  function GroupValue(groupBy: map<string, string>, key: string, ev: Event): string
    requires forall k :: k in groupBy ==> DATA_PREFIX <= groupBy[k]
  {
    if key == "subject" then ev.subject
    else if key == "customer_id" then ev.customerId
    else if key in groupBy && Member(groupBy[key]).Some? then DimensionValue(ev, Member(groupBy[key]).value)
    else ""
  }

  /** name reads as key once every character outside [0-9a-zA-Z_] is replaced by '_'. */
  predicate RewritesTo(name: string, key: string) {
    && |key| == |name|
    && forall i :: 0 <= i < |key| ==> key[i] == if IsWord(name[i]) then name[i] else '_'
  }

  /** The dimensions sent to a reserved key: exactly the non-identifiers that rewrite into one. */
  lemma ReservedKeyExactly(dimension: string)
    ensures GroupByKey(dimension) in RESERVED <==>
      !IsIdentifier(dimension) && (RewritesTo(dimension, "subject") || RewritesTo(dimension, "customer_id"))
    ensures GroupByKey("customer-id") == "customer_id"
  {
    assert !IsWord("customer-id"[8]);
    assert WordsOnly("customer-id") == "customer_id";
    var words := WordsOnly(dimension);
    assert (DIMENSION_PREFIX + words)[0] == 'd' && (DIMENSION_PREFIX + dimension)[0] == 'd';
    assert RewritesTo(dimension, words);
    assert RewritesTo(dimension, "subject") ==> words == "subject";
    assert RewritesTo(dimension, "customer_id") ==> words == "customer_id";
  }

  /** A filter on a key that is not reserved sees the dimension itself. */
  lemma KeyReadsDimension(groupBy: map<string, string>, dimensions: set<string>, d: string, ev: Event)
    requires Groups(groupBy, dimensions) && d in dimensions
    requires forall k :: k in groupBy ==> DATA_PREFIX <= groupBy[k]
    ensures GroupByKey(d) !in RESERVED ==> GroupValue(groupBy, GroupByKey(d), ev) == DimensionValue(ev, d)
  {
    assert Member(groupBy[GroupByKey(d)]) == Some(d);
  }

  /** A filter on a reserved key, for any value of the dimension, can see something else. */
  lemma ReservedKeyMisreads(groupBy: map<string, string>, d: string, v: string) returns (ev: Event)
    requires GroupByKey(d) in RESERVED
    requires forall k :: k in groupBy ==> DATA_PREFIX <= groupBy[k]
    ensures DimensionValue(ev, d) == v && GroupValue(groupBy, GroupByKey(d), ev) != v
  {
    ev := Event("", v + "x", v + "x", map[d := v], 0.0);
    assert |v + "x"| == |v| + 1;
  }
}
