/** Injection points of a JSON body (pwnproxy/shared/scan/params.py:146-166) and the injector that
    addresses them by dotted name (pwnproxy/shared/scan/replayer.py:153-180). */
module JsonInjection {
  import opened Wrappers
  import opened Text
  import Seqs

  /** A decoded document; objects keep insertion order. */
  datatype Json = Null | Bool(b: bool) | Num(n: int) | Str(s: string) | Arr(items: Items) | Obj(fields: Fields)

  datatype Items = NoItem | Item(head: Json, tail: Items)

  datatype Fields = NoField | Field(key: string, value: Json, rest: Fields)

  datatype Point = Point(name: string, value: string)

  predicate IsLeaf(d: Json) {
    !d.Obj? && !d.Arr?
  }

  /** `str(v)` of a leaf. */
  function Show(d: Json): string {
    match d
    case Null => "None"
    case Bool(b) => if b then "True" else "False"
    case Num(n) => if n < 0 then "-" + Decimal(-n) else Decimal(n)
    case Str(s) => s
    case _ => ""
  }

  /** Scalars print as Python prints them, and text as it is. */
  lemma {:induction false} ScalarsPrint(n: int, s: string)
    ensures Show(Null) == "None" && Show(Bool(true)) == "True" && Show(Bool(false)) == "False"
    ensures Show(Str(s)) == s && Show(Num(n)) == if n < 0 then "-" + Decimal(-n) else Decimal(n)
  {
  }

  // ----- extraction -----

  function Extract(prefix: string, d: Json): seq<Point>
    decreases d, 0
  {
    match d
    case Obj(fields) => ExtractFields(prefix, fields)
    case Arr(items) => ExtractItems(prefix, items, 0)
    case _ => []
  }

  function Extend(prefix: string, key: string): string {
    if prefix != "" then prefix + "." + key else key
  }

  function Indexed(prefix: string, i: nat): string {
    prefix + "[" + Decimal(i) + "]"
  }

  function ExtractField(name: string, d: Json): seq<Point>
    decreases d, 1
  {
    if IsLeaf(d) then [Point(name, Show(d))] else Extract(name, d)
  }

  function ExtractFields(prefix: string, fields: Fields): seq<Point>
    decreases fields
  {
    match fields
    case NoField => []
    case Field(k, v, rest) => ExtractField(Extend(prefix, k), v) + ExtractFields(prefix, rest)
  }

  function ExtractItems(prefix: string, items: Items, i: nat): seq<Point>
    decreases items
  {
    match items
    case NoItem => []
    case Item(d, rest) => Extract(Indexed(prefix, i), d) + ExtractItems(prefix, rest, i + 1)
  }

  /** `_extract_json_keys`, which appends to the list of points as it walks. */
  method ExtractJsonKeys(prefix: string, data: Json) returns (points: seq<Point>)
    ensures points == Extract(prefix, data)
    decreases data
  {
    match data
    case Obj(fields) => points := ExtractDict(prefix, fields);
    case Arr(items) => points := ExtractList(prefix, items);
    case _ => points := [];
  }

  method ExtractDict(prefix: string, fields: Fields) returns (points: seq<Point>)
    ensures points == ExtractFields(prefix, fields)
    decreases fields
  {
    points := [];
    var rest := fields;
    while rest.Field?
      invariant rest == fields || rest < fields
      invariant points + ExtractFields(prefix, rest) == ExtractFields(prefix, fields)
      decreases rest
    {
      var name := Extend(prefix, rest.key);
      var found;
      if IsLeaf(rest.value) {
        found := [Point(name, Show(rest.value))];
      } else {
        found := ExtractJsonKeys(name, rest.value);
      }
      Seqs.AppendAssoc(points, found, ExtractFields(prefix, rest.rest));
      points, rest := points + found, rest.rest;
    }
  }

  method ExtractList(prefix: string, items: Items) returns (points: seq<Point>)
    ensures points == ExtractItems(prefix, items, 0)
    decreases items
  {
    points := [];
    var rest, i := items, 0;
    while rest.Item?
      invariant rest == items || rest < items
      invariant points + ExtractItems(prefix, rest, i) == ExtractItems(prefix, items, 0)
      decreases rest
    {
      var name := Indexed(prefix, i);
      var found := ExtractJsonKeys(name, rest.head);
      Seqs.AppendAssoc(points, found, ExtractItems(prefix, rest.tail, i + 1));
      points, rest, i := points + found, rest.tail, i + 1;
    }
  }

  // ----- which path each point names -----

  /** The way to a part of a document: at each object or array, the how-manieth member. */
  type Path = seq<nat>

  function FieldAt(fields: Fields, n: nat): Option<(string, Json)> {
    match fields
    case NoField => None
    case Field(k, v, rest) => if n == 0 then Some((k, v)) else FieldAt(rest, n - 1)
  }

  function ItemAt(items: Items, n: nat): Option<Json> {
    match items
    case NoItem => None
    case Item(v, rest) => if n == 0 then Some(v) else ItemAt(rest, n - 1)
  }

  /** The n-th member of an object or array, and the name it gives: the key behind a dot, or the place in
      brackets, counted from `base`. */
  function Member(prefix: string, d: Json, base: nat, n: nat): Option<(string, Json)> {
    match d
    case Obj(fields) =>
      (match FieldAt(fields, n)
       case None => None
       case Some((k, v)) => Some((if prefix == "" then k else prefix + "." + k, v)))
    case Arr(items) =>
      (match ItemAt(items, n) case None => None case Some(v) => Some((prefix + "[" + Decimal(base + n) + "]", v)))
    case _ => None
  }

  /** What this path leads to and its name, if it is a scalar that is the value of a key. */
  function NamedLeaf(prefix: string, d: Json, base: nat, path: Path): Option<Point>
    decreases |path|
  {
    if path == [] then None
    else
      match Member(prefix, d, base, path[0])
      case None => None
      case Some((name, v)) =>
        if |path| == 1 then (if d.Obj? && IsLeaf(v) then Some(Point(name, Show(v))) else None)
        else NamedLeaf(name, v, 0, path[1..])
  }

  /** In document order `a` comes before `b`. */
  predicate Earlier(a: Path, b: Path) {
    a != [] && b != [] && (a[0] < b[0] || (a[0] == b[0] && Earlier(a[1..], b[1..])))
  }

  /** These are all the named scalars of a document, each once, in document order. */
  ghost predicate Lists(prefix: string, d: Json, base: nat, points: seq<Point>, at: seq<Path>) {
    && |at| == |points|
    && (forall j :: 0 <= j < |at| ==> NamedLeaf(prefix, d, base, at[j]) == Some(points[j]))
    && (forall i, j :: 0 <= i < j < |at| ==> Earlier(at[i], at[j]))
    && (forall path :: NamedLeaf(prefix, d, base, path).Some? ==> path in at)
  }

  function Under(n: nat, at: seq<Path>): (r: seq<Path>)
    ensures |r| == |at| && forall j :: 0 <= j < |at| ==> r[j] == [n] + at[j]
  {
    seq(|at|, j requires 0 <= j < |at| => [n] + at[j])
  }

  function NextOne(path: Path): Path {
    if path == [] then [] else [path[0] + 1] + path[1..]
  }

  function NextAll(at: seq<Path>): (r: seq<Path>)
    ensures |r| == |at| && forall j :: 0 <= j < |at| ==> r[j] == NextOne(at[j])
  {
    seq(|at|, j requires 0 <= j < |at| => NextOne(at[j]))
  }

  /** The points of the first member. */
  ghost predicate ListsFirst(prefix: string, d: Json, base: nat, points: seq<Point>, at: seq<Path>) {
    && |at| == |points|
    && (forall j :: 0 <= j < |at| ==> at[j] != [] && at[j][0] == 0 && NamedLeaf(prefix, d, base, at[j]) == Some(points[j]))
    && (forall i, j :: 0 <= i < j < |at| ==> Earlier(at[i], at[j]))
    && (forall path: Path :: path != [] && path[0] == 0 && NamedLeaf(prefix, d, base, path).Some? ==> path in at)
  }

  /** The members of `other` are those of `d` behind its first. */
  ghost predicate GoesOn(prefix: string, d: Json, base: nat, other: Json, base': nat) {
    forall path: Path :: path != [] ==> NamedLeaf(prefix, d, base, NextOne(path)) == NamedLeaf(prefix, other, base', path)
  }

  /** The points of the first member and those of the others, one place further on. */
  lemma {:induction false} FirstAndRest(prefix: string, d: Json, base: nat, here: seq<Point>, hereAt: seq<Path>,
                                        rest: seq<Point>, restAt: seq<Path>, other: Json, base': nat)
    requires ListsFirst(prefix, d, base, here, hereAt) && Lists(prefix, other, base', rest, restAt)
    requires GoesOn(prefix, d, base, other, base')
    ensures Lists(prefix, d, base, here + rest, hereAt + NextAll(restAt))
  {
    var nextAt := NextAll(restAt);
    forall j | 0 <= j < |rest| ensures restAt[j] != [] && NamedLeaf(prefix, d, base, nextAt[j]) == Some(rest[j]) && nextAt[j][0] > 0 {
      assert NamedLeaf(prefix, other, base', restAt[j]).Some?;
    }
    forall i, j | 0 <= i < j < |rest| ensures Earlier(nextAt[i], nextAt[j]) {
      LaterTogether(restAt[i], restAt[j]);
    }
    forall path: Path | path != [] && path[0] > 0 && NamedLeaf(prefix, d, base, path).Some? ensures path in nextAt {
      OneBack(prefix, d, base, rest, restAt, other, base', path);
    }
    JoinLists(prefix, d, base, here, hereAt, rest, nextAt);
  }

  lemma {:induction false} OneBack(prefix: string, d: Json, base: nat, rest: seq<Point>, restAt: seq<Path>, other: Json, base': nat,
                                   path: Path)
    requires Lists(prefix, other, base', rest, restAt) && GoesOn(prefix, d, base, other, base')
    requires path != [] && path[0] > 0 && NamedLeaf(prefix, d, base, path).Some?
    ensures path in NextAll(restAt)
  {
    var back := [path[0] - 1] + path[1..];
    assert NextOne(back) == path;
    assert NamedLeaf(prefix, other, base', back).Some?;
    var j :| 0 <= j < |restAt| && restAt[j] == back;
    assert NextAll(restAt)[j] == path;
  }

  lemma {:induction false} JoinLists(prefix: string, d: Json, base: nat, here: seq<Point>, hereAt: seq<Path>,
                                     rest: seq<Point>, nextAt: seq<Path>)
    requires ListsFirst(prefix, d, base, here, hereAt) && |nextAt| == |rest|
    requires forall j :: 0 <= j < |rest| ==> nextAt[j] != [] && nextAt[j][0] > 0 && NamedLeaf(prefix, d, base, nextAt[j]) == Some(rest[j])
    requires forall i, j :: 0 <= i < j < |rest| ==> Earlier(nextAt[i], nextAt[j])
    requires forall path :: path != [] && path[0] > 0 && NamedLeaf(prefix, d, base, path).Some? ==> path in nextAt
    ensures Lists(prefix, d, base, here + rest, hereAt + nextAt)
  {
    var at, points := hereAt + nextAt, here + rest;
    forall j | 0 <= j < |at| ensures NamedLeaf(prefix, d, base, at[j]) == Some(points[j]) {
      assert j < |here| ==> at[j] == hereAt[j] && points[j] == here[j];
    }
    forall i, j | 0 <= i < j < |at| ensures Earlier(at[i], at[j]) {
      assert i < |here| ==> at[i] == hereAt[i];
      assert j >= |here| ==> at[j] == nextAt[j - |here|];
    }
  }

  lemma {:induction false} LaterTogether(a: Path, b: Path)
    requires Earlier(a, b)
    ensures Earlier(NextOne(a), NextOne(b))
  {
    assert NextOne(a)[1..] == a[1..] && NextOne(b)[1..] == b[1..];
  }

  lemma {:induction false} UnderFirst(prefix: string, d: Json, base: nat, name: string, v: Json, points: seq<Point>, at: seq<Path>)
    requires Member(prefix, d, base, 0) == Some((name, v)) && Lists(name, v, 0, points, at) && !(d.Obj? && IsLeaf(v))
    ensures ListsFirst(prefix, d, base, points, Under(0, at))
  {
    var hereAt := Under(0, at);
    forall j | 0 <= j < |points|
      ensures hereAt[j] != [] && hereAt[j][0] == 0 && NamedLeaf(prefix, d, base, hereAt[j]) == Some(points[j])
    {
      assert hereAt[j][1..] == at[j];
    }
    forall i, j | 0 <= i < j < |points| ensures Earlier(hereAt[i], hereAt[j]) {
      assert hereAt[i][1..] == at[i] && hereAt[j][1..] == at[j];
    }
    forall path: Path | path != [] && path[0] == 0 && NamedLeaf(prefix, d, base, path).Some? ensures path in hereAt {
      assert path == [0] + path[1..] && NamedLeaf(name, v, 0, path[1..]).Some?;
      var j :| 0 <= j < |at| && at[j] == path[1..];
      assert hereAt[j] == path;
    }
  }

  /** Every point is the scalar its path leads to, under the name the path spells, keys behind dots and
      places of arrays in brackets; every scalar that is the value of a key is a point, also below arrays. */
  lemma {:induction false} PointsAreNamedLeaves(prefix: string, d: Json) returns (at: seq<Path>)
    ensures Lists(prefix, d, 0, Extract(prefix, d), at)
    decreases d, 0
  {
    match d
    case Obj(fields) => at := FieldsAreNamed(prefix, fields);
    case Arr(items) => at := ItemsAreNamed(prefix, items, 0);
    case _ => at := [];
  }

  lemma {:induction false} FieldsAreNamed(prefix: string, fields: Fields) returns (at: seq<Path>)
    ensures Lists(prefix, Obj(fields), 0, ExtractFields(prefix, fields), at)
    decreases fields
  {
    match fields
    case NoField => at := [];
    case Field(k, v, rest) =>
      var d, name := Obj(fields), Extend(prefix, k);
      var restAt := FieldsAreNamed(prefix, rest);
      var hereAt: seq<Path> := [[0]];
      if IsLeaf(v) {
        assert forall path: Path :: path != [] && path[0] == 0 && NamedLeaf(prefix, d, 0, path).Some? ==> path == [0];
        assert hereAt[0] == [0];
      } else {
        var sub := PointsAreNamedLeaves(name, v);
        UnderFirst(prefix, d, 0, name, v, Extract(name, v), sub);
        hereAt := Under(0, sub);
      }
      forall path: Path | path != [] ensures NamedLeaf(prefix, d, 0, NextOne(path)) == NamedLeaf(prefix, Obj(rest), 0, path) {
        assert NextOne(path)[1..] == path[1..];
      }
      FirstAndRest(prefix, d, 0, ExtractField(name, v), hereAt, ExtractFields(prefix, rest), restAt, Obj(rest), 0);
      at := hereAt + NextAll(restAt);
  }

  lemma {:induction false} ItemsAreNamed(prefix: string, items: Items, base: nat) returns (at: seq<Path>)
    ensures Lists(prefix, Arr(items), base, ExtractItems(prefix, items, base), at)
    decreases items
  {
    match items
    case NoItem => at := [];
    case Item(v, rest) =>
      var d, name := Arr(items), Indexed(prefix, base);
      var restAt := ItemsAreNamed(prefix, rest, base + 1);
      var sub := PointsAreNamedLeaves(name, v);
      UnderFirst(prefix, d, base, name, v, Extract(name, v), sub);
      forall path: Path | path != [] ensures NamedLeaf(prefix, d, base, NextOne(path)) == NamedLeaf(prefix, Arr(rest), base + 1, path) {
        assert NextOne(path)[1..] == path[1..];
        assert base + (path[0] + 1) == base + 1 + path[0];
      }
      FirstAndRest(prefix, d, base, Extract(name, v), Under(0, sub), ExtractItems(prefix, rest, base + 1), restAt, Arr(rest), base + 1);
      at := Under(0, sub) + NextAll(restAt);
  }

  // ----- injection -----

  function Get(fields: Fields, key: string): Option<Json> {
    match fields
    case NoField => None
    case Field(k, v, rest) => if k == key then Some(v) else Get(rest, key)
  }

  /** Assignment to a key: in place if it is there, else at the end. */
  function Set(fields: Fields, key: string, value: Json): Fields {
    match fields
    case NoField => Field(key, value, NoField)
    case Field(k, v, rest) => if k == key then Field(k, value, rest) else Field(k, v, Set(rest, key, value))
  }

  function LowerChar(c: char): char {
    if 'A' <= c <= 'Z' then ((c as int) + 32) as char else c
  }

  function Lower(s: string): (r: string)
    ensures |r| == |s|
  {
    seq(|s|, i requires 0 <= i < |s| => LowerChar(s[i]))
  }

  /** The payload in the type of what it replaces; `toInt` is the integer parser. */
  function Coerce(toInt: string -> Option<int>, payload: string, original: Option<Json>): Json {
    match original
    case Some(Bool(_)) => Bool(Lower(payload) in ["true", "false", "1", "0"])
    case Some(Num(_)) => (match toInt(payload) case Some(n) => Num(n) case None => Str(payload))
    case _ => Str(payload)
  }

  /** The part of a document a list of keys leads to, through objects only. */
  function At(d: Json, keys: seq<string>): Option<Json>
    decreases |keys|
  {
    if keys == [] then Some(d)
    else if !d.Obj? then None
    else match Get(d.fields, keys[0]) case None => None case Some(v) => At(v, keys[1..])
  }

  /** Replace what is reached by `keys`; the last key may be new, the others must be there. */
  function Put(d: Json, keys: seq<string>, value: Json): Json
    decreases |keys|
  {
    if keys == [] then value
    else if !d.Obj? then d
    else if |keys| == 1 then Obj(Set(d.fields, keys[0], value))
    else
      match Get(d.fields, keys[0])
      case None => d
      case Some(v) => Obj(Set(d.fields, keys[0], Put(v, keys[1..], value)))
  }

  function Inject(toInt: string -> Option<int>, d: Json, keys: seq<string>, payload: string): Json {
    Put(d, keys, Coerce(toInt, payload, At(d, keys)))
  }

  /** `_inject_json_body`: walk to the object that holds the last key; a missing key leads into a
      fresh object nobody sees, a value that is no object ends the walk. */
  method InjectJsonBody(toInt: string -> Option<int>, data: Json, param: string, payload: string) returns (out: Json)
    ensures out == Inject(toInt, data, Split(param, '.'), payload)
  {
    var keys := Split(param, '.');
    var d, i, detached := data, 0, false;
    assert keys[0..] == keys && keys[..0] == [];
    while i < |keys| - 1
      invariant 0 <= i <= |keys| - 1
      invariant detached ==> (forall v :: Put(data, keys, v) == data)
      invariant !detached ==> At(data, keys) == At(d, keys[i..])
      invariant !detached && !d.Obj? ==> (forall v :: Put(data, keys, v) == data)
      invariant !detached ==> At(data, keys[..i]) == Some(d)
    {
      if !d.Obj? {
        return data;
      }
      var next := Get(d.fields, keys[i]);
      AtSnoc(data, keys, i);
      assert keys[i..][1..] == keys[i + 1..];
      if detached || next.None? {
        if !detached {
          PutNowhere(data, keys, i);
        }
        d, detached := Obj(NoField), true;
      } else {
        d := next.value;
        if !d.Obj? {
          PutIntoLeaf(data, keys, i + 1);
        }
      }
      i := i + 1;
    }
    if detached || !d.Obj? {
      return data;
    }
    var last := keys[|keys| - 1];
    var value := Coerce(toInt, payload, Get(d.fields, last));
    assert keys[i..] == [last] && keys[i..][1..] == [];
    out := Put(data, keys, value);
  }

  lemma {:induction false} AtSnoc(d: Json, keys: seq<string>, i: nat)
    requires i < |keys|
    ensures At(d, keys[..i + 1]) == match At(d, keys[..i])
                                    case None => None
                                    case Some(v) => if v.Obj? then Get(v.fields, keys[i]) else None
    decreases |keys|
  {
    if i > 0 && d.Obj? {
      var v := Get(d.fields, keys[0]);
      assert keys[..i + 1][1..] == keys[1..][..i] && keys[..i][1..] == keys[1..][..i - 1];
      if v.Some? {
        AtSnoc(v.value, keys[1..], i - 1);
      }
    } else if i == 0 {
      assert keys[..1][1..] == [] && keys[..0] == [];
    }
  }

  lemma {:induction false} SetGet(fields: Fields, key: string, value: Json, other: string)
    ensures Get(Set(fields, key, value), other) == if other == key then Some(value) else Get(fields, other)
  {
    if fields.Field? && fields.key != key {
      SetGet(fields.rest, key, value, other);
    }
  }

  lemma {:induction false} SetSame(fields: Fields, key: string)
    ensures Get(fields, key).Some? ==> Set(fields, key, Get(fields, key).value) == fields
  {
    if fields.Field? && fields.key != key {
      SetSame(fields.rest, key);
    }
  }

  lemma {:induction false} SetTwice(fields: Fields, key: string, v: Json, w: Json)
    ensures Set(Set(fields, key, v), key, w) == Set(fields, key, w)
  {
    if fields.Field? && fields.key != key {
      SetTwice(fields.rest, key, v, w);
    }
  }

  lemma {:induction false} PutNowhere(d: Json, keys: seq<string>, i: nat)
    requires i < |keys| - 1
    requires At(d, keys[..i]).Some? && At(d, keys[..i]).value.Obj? && Get(At(d, keys[..i]).value.fields, keys[i]).None?
    ensures forall v :: Put(d, keys, v) == d
    decreases |keys|
  {
    if i > 0 {
      var next := Get(d.fields, keys[0]).value;
      assert keys[..i][1..] == keys[1..][..i - 1];
      PutNowhere(next, keys[1..], i - 1);
      SetSame(d.fields, keys[0]);
    } else {
      assert keys[..0] == [];
    }
  }

  lemma {:induction false} PutIntoLeaf(d: Json, keys: seq<string>, i: nat)
    requires 0 < i < |keys| && At(d, keys[..i]).Some? && !At(d, keys[..i]).value.Obj?
    ensures forall v :: Put(d, keys, v) == d
    decreases |keys|
  {
    var next := Get(d.fields, keys[0]).value;
    assert keys[..i][1..] == keys[1..][..i - 1];
    SetSame(d.fields, keys[0]);
    if i > 1 {
      PutIntoLeaf(next, keys[1..], i - 1);
    } else {
      assert keys[1..][..0] == [];
    }
  }

  // ----- the lens laws -----

  /** A list of keys that leads to a leaf. */
  ghost predicate LeadsToLeaf(d: Json, keys: seq<string>) {
    keys != [] && At(d, keys).Some? && IsLeaf(At(d, keys).value)
  }

  lemma {:induction false} AtPut(d: Json, keys: seq<string>, value: Json)
    requires At(d, keys).Some?
    ensures At(Put(d, keys, value), keys) == Some(value)
    decreases |keys|
  {
    if keys != [] {
      AtPut(Get(d.fields, keys[0]).value, keys[1..], value);
      SetGet(d.fields, keys[0], Put(Get(d.fields, keys[0]).value, keys[1..], value), keys[0]);
      assert |keys| == 1 ==> keys[1..] == [];
    }
  }

  lemma {:induction false} PutAt(d: Json, keys: seq<string>)
    requires At(d, keys).Some?
    ensures Put(d, keys, At(d, keys).value) == d
    decreases |keys|
  {
    if keys != [] {
      PutAt(Get(d.fields, keys[0]).value, keys[1..]);
      SetSame(d.fields, keys[0]);
      assert |keys| == 1 ==> keys[1..] == [];
    }
  }

  lemma {:induction false} PutPut(d: Json, keys: seq<string>, v: Json, w: Json)
    requires At(d, keys).Some?
    ensures Put(Put(d, keys, v), keys, w) == Put(d, keys, w)
    decreases |keys|
  {
    if keys != [] {
      var next := Get(d.fields, keys[0]).value;
      PutPut(next, keys[1..], v, w);
      SetGet(d.fields, keys[0], Put(next, keys[1..], v), keys[0]);
      SetTwice(d.fields, keys[0], Put(next, keys[1..], v), Put(next, keys[1..], w));
      assert |keys| == 1 ==> keys[1..] == [];
    }
  }

  /** Injecting the value a leaf already shows changes nothing exactly when the leaf is neither false
      nor null: "False" is coerced to true, and "None" to a string. */
  lemma {:induction false} InjectingTheOriginalExactly(toInt: string -> Option<int>, d: Json, keys: seq<string>)
    requires LeadsToLeaf(d, keys)
    requires forall n :: toInt(Show(Num(n))) == Some(n)
    ensures var leaf := At(d, keys).value;
            Inject(toInt, d, keys, Show(leaf)) == d <==> leaf != Bool(false) && leaf != Null
  {
    var leaf := At(d, keys).value;
    PutAt(d, keys);
    AtPut(d, keys, Coerce(toInt, Show(leaf), Some(leaf)));
    assert Lower("True") == "true" && Lower("False") == "false";
    assert "true" in ["true", "false", "1", "0"] && "false" in ["true", "false", "1", "0"];
  }

  /** The last of two injections wins, unless a number was first turned into text and the second
      payload is a number again. */
  lemma {:induction false} LastInjectionWinsExactly(toInt: string -> Option<int>, d: Json, keys: seq<string>, p: string, q: string)
    requires LeadsToLeaf(d, keys)
    ensures Inject(toInt, Inject(toInt, d, keys, p), keys, q) == Inject(toInt, d, keys, q)
       <==> !(At(d, keys).value.Num? && toInt(p).None? && toInt(q).Some?)
  {
    var leaf := At(d, keys);
    var v := Coerce(toInt, p, leaf);
    AtPut(d, keys, v);
    PutPut(d, keys, v, Coerce(toInt, q, Some(v)));
    AtPut(d, keys, Coerce(toInt, q, Some(v)));
    AtPut(d, keys, Coerce(toInt, q, leaf));
  }

  // ----- injecting at an extracted name -----

  /** The name extraction gives to what `keys` lead to. */
  function Name(prefix: string, keys: seq<string>): string
    decreases |keys|
  {
    if keys == [] then prefix else Name(Extend(prefix, keys[0]), keys[1..])
  }

  /** Where the point of that leaf stands among the extracted points. */
  function Position(prefix: string, fields: Fields, keys: seq<string>): nat
    decreases fields
  {
    match fields
    case NoField => 0
    case Field(k, v, rest) =>
      if keys == [] || k != keys[0] then |ExtractField(Extend(prefix, k), v)| + Position(prefix, rest, keys)
      else if v.Obj? then Position(Extend(prefix, k), v.fields, keys[1..])
      else 0
  }

  lemma {:induction false} ExtractObject(name: string, v: Json)
    requires v.Obj?
    ensures ExtractField(name, v) == ExtractFields(name, v.fields)
  {
  }

  /** What `PutChangesOnePoint` says of a list of points before and after. */
  ghost predicate OneChanged(points: seq<Point>, i: nat, name: string, was: string, now: string, after: seq<Point>) {
    i < |points| && points[i] == Point(name, was) && after == points[i := Point(name, now)]
  }

  lemma {:induction false} OneChangedInFront(front: seq<Point>, points: seq<Point>, i: nat, name: string, was: string, now: string, after: seq<Point>)
    requires OneChanged(points, i, name, was, now, after)
    ensures OneChanged(front + points, |front| + i, name, was, now, front + after)
  {
  }

  lemma {:induction false} OneChangedBehind(points: seq<Point>, i: nat, name: string, was: string, now: string, after: seq<Point>, back: seq<Point>)
    requires OneChanged(points, i, name, was, now, after)
    ensures OneChanged(points + back, i, name, was, now, after + back)
  {
  }

  /** The same of an object, seen from the object that holds it. */
  lemma {:induction false} OneChangedInside(prefix: string, k: string, v: Json, rest: Fields, inner: seq<string>, leaf: Json)
    requires v.Obj? && LeadsToLeaf(v, inner)
    requires Put(v, inner, leaf).Obj?
    requires OneChanged(ExtractFields(Extend(prefix, k), v.fields), Position(Extend(prefix, k), v.fields, inner),
                        Name(Extend(prefix, k), inner), Show(At(v, inner).value), Show(leaf),
                        ExtractFields(Extend(prefix, k), Put(v, inner, leaf).fields))
    ensures var fields, keys := Field(k, v, rest), [k] + inner;
            && Put(Obj(fields), keys, leaf).Obj? && At(Obj(fields), keys) == At(v, inner)
            && OneChanged(ExtractFields(prefix, fields), Position(prefix, fields, keys), Name(prefix, keys),
                          Show(At(v, inner).value), Show(leaf), ExtractFields(prefix, Put(Obj(fields), keys, leaf).fields))
  {
    var fields, keys, name := Field(k, v, rest), [k] + inner, Extend(prefix, k);
    var w := Put(v, inner, leaf);
    assert keys[1..] == inner;
    ExtractObject(name, v);
    ExtractObject(name, w);
    OneChangedBehind(ExtractField(name, v), Position(name, v.fields, inner), Name(name, inner),
                     Show(At(v, inner).value), Show(leaf), ExtractField(name, w), ExtractFields(prefix, rest));
    assert Put(Obj(fields), keys, leaf) == Obj(Field(k, w, rest));
  }

  /** And of a leaf, seen from the object that holds it. */
  lemma {:induction false} OneChangedHere(prefix: string, k: string, v: Json, rest: Fields, leaf: Json)
    requires IsLeaf(v) && IsLeaf(leaf)
    ensures var fields, name := Field(k, v, rest), Extend(prefix, k);
            && Put(Obj(fields), [k], leaf) == Obj(Field(k, leaf, rest))
            && OneChanged(ExtractFields(prefix, fields), 0, name, Show(v), Show(leaf),
                          ExtractFields(prefix, Field(k, leaf, rest)))
  {
    assert ExtractField(Extend(prefix, k), v) == [Point(Extend(prefix, k), Show(v))];
  }

  /** A leaf that can be reached is one of the extracted points, and putting another leaf there changes
      the value of that point alone: names, order and every other value stay. */
  lemma {:induction false} PutChangesOnePoint(prefix: string, fields: Fields, keys: seq<string>, leaf: Json)
    requires LeadsToLeaf(Obj(fields), keys) && IsLeaf(leaf)
    ensures Put(Obj(fields), keys, leaf).Obj?
    ensures OneChanged(ExtractFields(prefix, fields), Position(prefix, fields, keys), Name(prefix, keys),
                       Show(At(Obj(fields), keys).value), Show(leaf),
                       ExtractFields(prefix, Put(Obj(fields), keys, leaf).fields))
    decreases fields
  {
    var Field(k, v, rest) := fields;
    var name := Extend(prefix, k);
    var here, there := ExtractField(name, v), ExtractFields(prefix, rest);
    var was, now := Show(At(Obj(fields), keys).value), Show(leaf);
    if k != keys[0] {
      PutChangesOnePoint(prefix, rest, keys, leaf);
      OneChangedInFront(here, there, Position(prefix, rest, keys), Name(prefix, keys), was, now,
                        ExtractFields(prefix, Put(Obj(rest), keys, leaf).fields));
    } else if v.Obj? {
      var inner := keys[1..];
      assert At(Obj(fields), keys) == At(v, inner) && inner != [];
      assert Obj(v.fields) == v && keys == [k] + inner;
      PutChangesOnePoint(name, v.fields, inner, leaf);
      OneChangedInside(prefix, k, v, rest, inner, leaf);
    } else {
      assert At(Obj(fields), keys) == At(v, keys[1..]);
      assert keys[1..] == [] && keys == [k];
      OneChangedHere(prefix, k, v, rest, leaf);
    }
  }

  /** An array-free document with unique, non-empty, dot-free keys. */
  ghost predicate Clean(d: Json)
    decreases d
  {
    !d.Arr? && (d.Obj? ==> CleanFields(d.fields))
  }

  ghost predicate CleanFields(fields: Fields)
    decreases fields
  {
    fields.Field? ==>
      && fields.key != "" && '.' !in fields.key && Get(fields.rest, fields.key).None?
      && Clean(fields.value) && CleanFields(fields.rest)
  }

  ghost predicate CleanKeys(keys: seq<string>) {
    forall k :: k in keys ==> k != "" && '.' !in k
  }

  /** Dotted names keep apart: the name of a path splits back into the path. */
  lemma {:induction false} NameSplits(keys: seq<string>)
    requires keys != [] && CleanKeys(keys)
    ensures Split(Name("", keys), '.') == keys
  {
    assert keys[0] in keys;
    NameIsJoin(keys[0], keys[1..]);
    assert [keys[0]] + keys[1..] == keys;
    SplitJoin(keys, '.');
  }

  lemma {:induction false} NameIsJoin(prefix: string, keys: seq<string>)
    requires prefix != ""
    ensures Name(prefix, keys) == Join([prefix] + keys, ".")
    decreases |keys|
  {
    if keys != [] {
      NameIsJoin(Extend(prefix, keys[0]), keys[1..]);
      var tail := keys[1..];
      assert ([prefix] + keys)[1..] == keys;
      assert ([prefix + "." + keys[0]] + tail)[1..] == tail;
      if tail == [] {
        assert [prefix + "." + keys[0]] + tail == [prefix + "." + keys[0]];
      } else {
        assert prefix + "." + keys[0] + "." + Join(tail, ".") == prefix + "." + (keys[0] + "." + Join(tail, "."));
      }
    }
  }

  /** Every point extracted from a clean document is the leaf of some path. */
  lemma {:induction false} PointHasPath(prefix: string, fields: Fields, i: nat) returns (keys: seq<string>)
    requires CleanFields(fields) && i < |ExtractFields(prefix, fields)|
    ensures LeadsToLeaf(Obj(fields), keys) && CleanKeys(keys) && Position(prefix, fields, keys) == i
    decreases fields
  {
    var Field(k, v, rest) := fields;
    var here := |ExtractField(Extend(prefix, k), v)|;
    if i >= here {
      keys := PointHasPath(prefix, rest, i - here);
    } else if v.Obj? {
      assert ExtractField(Extend(prefix, k), v) == ExtractFields(Extend(prefix, k), v.fields);
      var deeper := PointHasPath(Extend(prefix, k), v.fields, i);
      keys := [k] + deeper;
      assert keys[1..] == deeper;
    } else {
      keys := [k];
      assert keys[1..] == [];
    }
  }

  /** Inject at any extracted name of a clean document and extract again: the same names in the same
      order, and only that value changed, to the payload as it reads after coercion. For a string or
      null that is the payload itself. */
  lemma {:induction false} InjectThenExtract(toInt: string -> Option<int>, d: Json, i: nat, payload: string)
    requires Clean(d) && i < |Extract("", d)|
    ensures var p := Extract("", d)[i];
            var keys := Split(p.name, '.');
            && LeadsToLeaf(d, keys)
            && p.value == Show(At(d, keys).value)
            && Extract("", Inject(toInt, d, keys, payload))
               == Extract("", d)[i := Point(p.name, Show(Coerce(toInt, payload, At(d, keys))))]
            && (At(d, keys).value.Str? || At(d, keys).value.Null? ==> Show(Coerce(toInt, payload, At(d, keys))) == payload)
  {
    var keys := PointHasPath("", d.fields, i);
    NameSplits(keys);
    PutChangesOnePoint("", d.fields, keys, Coerce(toInt, payload, At(d, keys)));
  }

  /** No two points of a clean document share a name, so a finding names its leaf. */
  lemma {:induction false} NamesAreUnique(d: Json, i: nat, j: nat)
    requires Clean(d) && i < |Extract("", d)| && j < |Extract("", d)|
    requires Extract("", d)[i].name == Extract("", d)[j].name
    ensures i == j
  {
    var a := PointHasPath("", d.fields, i);
    var b := PointHasPath("", d.fields, j);
    NameSplits(a);
    NameSplits(b);
    PutChangesOnePoint("", d.fields, a, Null);
    PutChangesOnePoint("", d.fields, b, Null);
  }

  /** A name that passes through a missing key, as every name below an array does, or through a value
      that is no object injects nothing at all. */
  lemma {:induction false} LostNamesInjectNothing(toInt: string -> Option<int>, d: Json, keys: seq<string>, i: nat, payload: string)
    requires i < |keys| - 1 && At(d, keys[..i]).Some?
    requires var v := At(d, keys[..i]).value; v.Obj? ==> Get(v.fields, keys[i]).None?
    ensures Inject(toInt, d, keys, payload) == d
  {
    if At(d, keys[..i]).value.Obj? {
      PutNowhere(d, keys, i);
    } else if i > 0 {
      PutIntoLeaf(d, keys, i);
    }
  }
}
