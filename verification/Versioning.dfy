/** The version inside an encrypted payload, and the migrator chain (core/versioning.ts). */
module Versioning {
  import opened Wrappers

  datatype Json =
    | Null
    | Bool(b: bool)
    | Number(n: int)
    | Str(s: string)
    | Arr(items: seq<Json>)
    | Obj(members: map<string, Json>)

  datatype Error = NotAnObject | NewerThanCode | MissingMigrator | MigratorThrew

  /** A migrator gives the next shape or throws. `migrators[0]` goes from version 1 to version 2. */
  type Migrator = Json -> Option<Json>

  function ToEnvelope(data: Json, version: int): Json {
    Obj(map["_v" := Number(version), "d" := data])
  }

  /** The `in` operator throws on anything that is not an object; an array has neither key. */
  function FromEnvelope(raw: Json, dbVersion: int): Result<(Json, int), Error> {
    match raw
    case Obj(m) =>
      if "_v" in m && "d" in m && m["_v"].Number? then Success((m["d"], m["_v"].n)) else Success((raw, dbVersion))
    case Arr(_) => Success((raw, dbVersion))
    case _ => Failure(NotAnObject)
  }

  /** The migrators from `v` up to, not including, `u`, one after the other. */
  function Chain(data: Json, v: int, u: int, migrators: seq<Migrator>): Result<Json, Error>
    decreases u - v
  {
    if v >= u then Success(data)
    else if v < 1 || v > |migrators| then Failure(MissingMigrator)
    else
      var next := migrators[v - 1](data);
      if next.None? then Failure(MigratorThrew) else Chain(next.value, v + 1, u, migrators)
  }

  /** The outcome of `runMigrations`: the data, and whether a migrator ran. */
  function Migrated(data: Json, from: int, current: int, migrators: seq<Migrator>): Result<(Json, bool), Error> {
    if from > current then Failure(NewerThanCode)
    else
      var r := Chain(data, from, current, migrators);
      if r.Success? then Success((r.value, from < current)) else Failure(r.error)
  }

  method RunMigrations(data: Json, fromVersion: int, currentVersion: int, migrators: seq<Migrator>)
    returns (r: Result<(Json, bool), Error>)
    ensures r == Migrated(data, fromVersion, currentVersion, migrators)
  {
    if fromVersion == currentVersion {
      return Success((data, false));
    }
    if fromVersion > currentVersion {
      return Failure(NewerThanCode);
    }
    var result := data;
    var v := fromVersion;
    while v < currentVersion
      invariant fromVersion <= v <= currentVersion
      invariant Chain(data, fromVersion, currentVersion, migrators) == Chain(result, v, currentVersion, migrators)
    {
      if v < 1 || v > |migrators| {
        return Failure(MissingMigrator);
      }
      var next := migrators[v - 1](result);
      if next.None? {
        return Failure(MigratorThrew);
      }
      result := next.value;
      v := v + 1;
    }
    return Success((result, true));
  }

  /** Stopping at any version on the way and migrating on from there later comes to the same. */
  lemma {:induction false} ChainsCompose(data: Json, v: int, w: int, u: int, migrators: seq<Migrator>)
    requires v <= w <= u
    ensures var half := Chain(data, v, w, migrators);
            Chain(data, v, u, migrators) ==
            if half.Success? then Chain(half.value, w, u, migrators) else half
    decreases w - v
  {
    if v < w && 1 <= v <= |migrators| && migrators[v - 1](data).Some? {
      ChainsCompose(migrators[v - 1](data).value, v + 1, w, u, migrators);
    }
  }

  /** The version inside the payload is the one that counts, whatever the database column says. */
  lemma AuthenticatedVersionWins(data: Json, version: int, dbVersion: int)
    ensures FromEnvelope(ToEnvelope(data, version), dbVersion) == Success((data, version))
  {
    assert "_v" in ToEnvelope(data, version).members;
  }

  /** A payload that is not an envelope is taken as it is, at the version the database column gives. */
  lemma UnversionedIsTakenAsIs(raw: Json, dbVersion: int)
    requires raw.Arr? || raw.Obj?
    requires raw.Obj? ==> "_v" !in raw.members || "d" !in raw.members || !raw.members["_v"].Number?
    ensures FromEnvelope(raw, dbVersion) == Success((raw, dbVersion))
  {
  }

  /** What is no object at all is rejected. */
  lemma OnlyObjectsAreRead(raw: Json, dbVersion: int)
    ensures FromEnvelope(raw, dbVersion).Failure? <==> !raw.Arr? && !raw.Obj?
  {
  }

  /** One version on: exactly the migrator of that version runs, once. */
  lemma EachMigratorInTurn(data: Json, v: int, migrators: seq<Migrator>)
    requires 1 <= v <= |migrators|
    ensures var next := migrators[v - 1](data);
            Migrated(data, v, v + 1, migrators)
            == if next.Some? then Success((next.value, true)) else Failure(MigratorThrew)
  {
    assert migrators[v - 1](data).Some? ==>
             Chain(migrators[v - 1](data).value, v + 1, v + 1, migrators) == Success(migrators[v - 1](data).value);
  }

  /** Data at the current version is left alone, newer data is refused, and so is a version without a migrator. */
  lemma WhereNoMigratorRuns(data: Json, from: int, current: int, migrators: seq<Migrator>)
    ensures from == current ==> Migrated(data, from, current, migrators) == Success((data, false))
    ensures from > current <==> Migrated(data, from, current, migrators) == Failure(NewerThanCode)
    ensures from < current && (from < 1 || from > |migrators|) ==>
              Migrated(data, from, current, migrators) == Failure(MissingMigrator)
  {
    ChainNeverNewer(data, from, current, migrators);
  }

  lemma {:induction false} ChainNeverNewer(data: Json, v: int, u: int, migrators: seq<Migrator>)
    ensures Chain(data, v, u, migrators) != Failure(NewerThanCode)
    decreases u - v
  {
    if v < u && 1 <= v <= |migrators| && migrators[v - 1](data).Some? {
      ChainNeverNewer(migrators[v - 1](data).value, v + 1, u, migrators);
    }
  }

  /** Each migrator takes the shape of its version to the shape of the next. */
  ghost predicate StepsUp(shape: (int, Json) -> bool, migrators: seq<Migrator>) {
    forall v, x :: 1 <= v <= |migrators| && shape(v, x) ==>
      migrators[v - 1](x).Some? && shape(v + 1, migrators[v - 1](x).value)
  }

  /** Migrating data of an old shape gives data of the current shape, whatever the shapes of the versions are,
      and says so. */
  lemma {:induction false} ShapesAreReached(shape: (int, Json) -> bool, data: Json, from: int, current: int,
                                            migrators: seq<Migrator>)
    requires StepsUp(shape, migrators) && shape(from, data) && 1 <= from <= current <= |migrators| + 1
    ensures var m := Migrated(data, from, current, migrators);
            m.Success? && shape(current, m.value.0) && (m.value.1 <==> from < current)
    decreases current - from
  {
    if from < current {
      ShapesAreReached(shape, migrators[from - 1](data).value, from + 1, current, migrators);
    }
  }
}
