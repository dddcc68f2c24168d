/** The Movie record of internal/data/movies.go and the JSON object its struct
    tags make of it: which keys appear, in which order, carrying which field. */
module Data {
  import opened Common

  type Int32 = x: int | -0x8000_0000 <= x < 0x8000_0000
  const MaxInt64 := 0x7FFF_FFFF_FFFF_FFFF
  const MinInt64 := -0x8000_0000_0000_0000

  type Int64 = x: int | MinInt64 <= x <= MaxInt64

  /** The Runtime scalar (minutes). Its codec is not part of this model, only
      its zero value, which decides whether the `runtime` key is emitted. */
  datatype Runtime = Runtime(minutes: Int32)

  const ZeroRuntime := Runtime(0)

  /** `createdAt` stands for a time.Time; 0 is Go's zero time. `genres` is None
      for a nil slice and Some([]) for an empty but non-nil one. */
  datatype Movie = Movie(
    id: Int64,
    createdAt: int,
    title: string,
    year: Int32,
    runtime: Runtime,
    genres: Option<seq<string>>,
    version: Int32)

  /** The value an emitted key carries, before it is turned into JSON text. */
  datatype FieldValue =
    | IntValue(n: int)
    | TextValue(text: string)
    | RuntimeValue(runtime: Runtime)
    | TextListValue(items: seq<string>)

  /** The struct fields that have a JSON key, in declaration order; `CreatedAt`
      is tagged `json:"-"` and has none. */
  datatype Key = IdKey | TitleKey | YearKey | RuntimeKey | GenresKey | VersionKey

  /** The wire name of each key, as the struct tags spell it. */
  function Name(k: Key): string
  {
    match k
    case IdKey => "id"
    case TitleKey => "title"
    case YearKey => "year"
    case RuntimeKey => "runtime"
    case GenresKey => "genres"
    case VersionKey => "version"
  }

  /** Position of a key in declaration order. */
  function Rank(k: Key): nat
  {
    match k
    case IdKey => 0
    case TitleKey => 1
    case YearKey => 2
    case RuntimeKey => 3
    case GenresKey => 4
    case VersionKey => 5
  }

  const DeclaredKeys: seq<Key> := [IdKey, TitleKey, YearKey, RuntimeKey, GenresKey, VersionKey]

  type Field = (Key, FieldValue)

  /** The value under `key` in an encoded object, if the key is there. */
  function Lookup(fields: seq<Field>, key: Key): Option<FieldValue>
  {
    if |fields| == 0 then None
    else if fields[0].0 == key then Some(fields[0].1)
    else Lookup(fields[1..], key)
  }

  /** The keys the encoded object carries, in order. */
  function Keys(fields: seq<Field>): seq<Key>
  {
    if |fields| == 0 then [] else [fields[0].0] + Keys(fields[1..])
  }

  /** Whether the field under a key is emitted: the three `omitzero` fields are
      left out when they hold their zero value (a nil slice for `genres`; an
      empty but non-nil slice is not zero). */
  predicate Emitted(m: Movie, k: Key)
  {
    match k
    case YearKey => m.year != 0
    case RuntimeKey => m.runtime != ZeroRuntime
    case GenresKey => m.genres.Some?
    case _ => true
  }

  /** The value carried under a key. */
  function ValueOf(m: Movie, k: Key): FieldValue
    requires Emitted(m, k)
  {
    match k
    case IdKey => IntValue(m.id)
    case TitleKey => TextValue(m.title)
    case YearKey => IntValue(m.year)
    case RuntimeKey => RuntimeValue(m.runtime)
    case GenresKey => TextListValue(m.genres.value)
    case VersionKey => IntValue(m.version)
  }

  predicate InDeclarationOrder(keys: seq<Key>)
  {
    forall i, j :: 0 <= i < j < |keys| ==> Rank(keys[i]) < Rank(keys[j])
  }

  /** The keys of an encoded object strictly follow declaration order (so no
      key appears twice). */
  predicate Ordered(fields: seq<Field>)
  {
    InDeclarationOrder(Keys(fields))
  }

  /** The pairs the encoder produces when it walks `keys` in order, skipping
      the omitted fields. */
  function Encode(m: Movie, keys: seq<Key>): (r: seq<Field>)
    ensures forall i :: 0 <= i < |r| ==> r[i].0 in keys && Emitted(m, r[i].0)
  {
    if |keys| == 0 then []
    else
      var rest := Encode(m, keys[1..]);
      assert forall i :: 0 <= i < |rest| ==> rest[i].0 in keys[1..];
      if Emitted(m, keys[0]) then [(keys[0], ValueOf(m, keys[0]))] + rest else rest
  }

  /** Walking keys in declaration order yields pairs in declaration order. */
  lemma EncodeOrdered(m: Movie, keys: seq<Key>)
    requires InDeclarationOrder(keys)
    ensures Ordered(Encode(m, keys))
  {
    KeysEncode(m, keys);
    PresentOrdered(m, keys);
  }

  lemma {:induction false} LookupEncode(m: Movie, keys: seq<Key>, key: Key)
    ensures Lookup(Encode(m, keys), key) ==
      if key in keys && Emitted(m, key) then Some(ValueOf(m, key)) else None
  {
    if |keys| > 0 {
      LookupEncode(m, keys[1..], key);
      if Emitted(m, keys[0]) {
        var r := Encode(m, keys);
        assert r[1..] == Encode(m, keys[1..]);
      }
    }
  }

  lemma DeclaredKeysInOrder()
    ensures InDeclarationOrder(DeclaredKeys)
  {
  }

  /** The object json.Marshal makes of a Movie: its keys follow declaration
      order, so none appears twice. */
  function Fields(m: Movie): (r: seq<Field>)
    ensures Ordered(r)
  {
    DeclaredKeysInOrder();
    EncodeOrdered(m, DeclaredKeys);
    Encode(m, DeclaredKeys)
  }

  /** What each key of a movie's object holds: `id`, `title` and `version`
      always, even when zero or empty; `year`, `runtime` and `genres` only when
      not the zero value (`omitzero`), so an empty but non-nil genre list is
      still emitted. */
  lemma FieldValues(m: Movie)
    ensures Lookup(Fields(m), IdKey) == Some(IntValue(m.id))
    ensures Lookup(Fields(m), TitleKey) == Some(TextValue(m.title))
    ensures Lookup(Fields(m), VersionKey) == Some(IntValue(m.version))
    ensures Lookup(Fields(m), YearKey) == if m.year == 0 then None else Some(IntValue(m.year))
    ensures Lookup(Fields(m), RuntimeKey) == if m.runtime == ZeroRuntime then None else Some(RuntimeValue(m.runtime))
    ensures Lookup(Fields(m), GenresKey) == if m.genres.None? then None else Some(TextListValue(m.genres.value))
  {
    forall k: Key ensures Lookup(Fields(m), k) == if Emitted(m, k) then Some(ValueOf(m, k)) else None {
      LookupEncode(m, DeclaredKeys, k);
    }
  }

  /** No key's wire name is `created_at` (or any other spelling the struct does
      not tag), and distinct keys have distinct names. */
  lemma WireNames(k: Key, k': Key)
    ensures Name(k) in ["id", "title", "year", "runtime", "genres", "version"]
    ensures Name(k) != "created_at"
    ensures Name(k) == Name(k') ==> k == k'
  {
  }

  lemma {:induction false} EncodeIgnoresCreatedAt(m: Movie, t: int, keys: seq<Key>)
    ensures Encode(m.(createdAt := t), keys) == Encode(m, keys)
  {
    if |keys| > 0 {
      EncodeIgnoresCreatedAt(m, t, keys[1..]);
      var m' := m.(createdAt := t);
      assert Emitted(m', keys[0]) == Emitted(m, keys[0]);
      assert Emitted(m, keys[0]) ==> ValueOf(m', keys[0]) == ValueOf(m, keys[0]);
    }
  }

  /** The creation time is never serialised: two movies that differ only in
      `createdAt` encode to the same object. */
  lemma CreatedAtNeverEmitted(m: Movie, t: int)
    ensures Fields(m.(createdAt := t)) == Fields(m)
  {
    EncodeIgnoresCreatedAt(m, t, DeclaredKeys);
  }

  /** The keys among `keys` whose field is emitted, in the same order. */
  function Present(m: Movie, keys: seq<Key>): (r: seq<Key>)
    ensures forall i :: 0 <= i < |r| ==> r[i] in keys && Emitted(m, r[i])
  {
    if |keys| == 0 then []
    else (if Emitted(m, keys[0]) then [keys[0]] else []) + Present(m, keys[1..])
  }

  lemma {:induction false} KeysEncode(m: Movie, keys: seq<Key>)
    ensures Keys(Encode(m, keys)) == Present(m, keys)
  {
    if |keys| > 0 {
      KeysEncode(m, keys[1..]);
    }
  }

  /** Dropping keys keeps the order of those that remain. */
  lemma {:induction false} PresentOrdered(m: Movie, keys: seq<Key>)
    requires InDeclarationOrder(keys)
    ensures InDeclarationOrder(Present(m, keys))
  {
    if |keys| > 0 {
      PresentOrdered(m, keys[1..]);
      var rest := Present(m, keys[1..]);
      forall i | 0 <= i < |rest| ensures Rank(keys[0]) < Rank(rest[i]) {
        assert rest[i] in keys[1..];
      }
      if Emitted(m, keys[0]) {
        var r := Present(m, keys);
        assert r == [keys[0]] + rest;
      }
    }
  }

  lemma PresentCons(m: Movie, k: Key, keys: seq<Key>)
    ensures Present(m, [k] + keys) == (if Emitted(m, k) then [k] else []) + Present(m, keys)
  {
    assert ([k] + keys)[1..] == keys;
  }

  /** The keys a movie emits are exactly the declared keys whose field is not
      omitted, in declaration order. */
  lemma EmittedKeys(m: Movie)
    ensures Keys(Fields(m)) ==
      [IdKey, TitleKey]
      + (if m.year != 0 then [YearKey] else [])
      + (if m.runtime != ZeroRuntime then [RuntimeKey] else [])
      + (if m.genres.Some? then [GenresKey] else [])
      + [VersionKey]
  {
    var y := if m.year != 0 then [YearKey] else [];
    var rt := if m.runtime != ZeroRuntime then [RuntimeKey] else [];
    var g := if m.genres.Some? then [GenresKey] else [];
    KeysEncode(m, DeclaredKeys);
    PresentDeclared(m);
    Reassemble(y, rt, g);
  }

  lemma PresentDeclared(m: Movie)
    ensures Present(m, DeclaredKeys) ==
      [IdKey] + ([TitleKey]
      + ((if m.year != 0 then [YearKey] else [])
      + ((if m.runtime != ZeroRuntime then [RuntimeKey] else [])
      + ((if m.genres.Some? then [GenresKey] else []) + ([VersionKey] + [])))))
  {
    var s5 := [VersionKey] + [];
    var s4 := [GenresKey] + s5;
    var s3 := [RuntimeKey] + s4;
    var s2 := [YearKey] + s3;
    var s1 := [TitleKey] + s2;
    PresentCons(m, VersionKey, []);
    PresentCons(m, GenresKey, s5);
    PresentCons(m, RuntimeKey, s4);
    PresentCons(m, YearKey, s3);
    PresentCons(m, TitleKey, s2);
    PresentCons(m, IdKey, s1);
    DeclaredKeysCons();
  }

  lemma DeclaredKeysCons()
    ensures DeclaredKeys == [IdKey] + ([TitleKey] + ([YearKey] + ([RuntimeKey] + ([GenresKey] + ([VersionKey] + [])))))
  {
  }

  lemma Reassemble(y: seq<Key>, rt: seq<Key>, g: seq<Key>)
    ensures [IdKey] + ([TitleKey] + (y + (rt + (g + ([VersionKey] + []))))) == [IdKey, TitleKey] + y + rt + g + [VersionKey]
  {
    assert [VersionKey] + [] == [VersionKey];
    assert [IdKey] + [TitleKey] == [IdKey, TitleKey];
  }
}
