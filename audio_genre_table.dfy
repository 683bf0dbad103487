/**
 * The song-genre association table as a value: lookup by composite key,
 * removal of a key, and the per-song genre lists that the bulk lookup builds.
 * The repository and the service are proved against these definitions.
 */
module AudioGenreTable {
  import opened Common
  import opened Entities

  // ---------------------------------------------------------------------------
  // Lookup and removal by composite key
  // ---------------------------------------------------------------------------

  /** The row whose composite key is (audioId, genreId), or None. */
  function Find(rows: seq<AudioGenre>, audioId: int, genreId: int): (r: Option<AudioGenre>)
    ensures r.Some? <==> AudioGenre(audioId, genreId) in rows
    ensures r.Some? ==> r.value == AudioGenre(audioId, genreId)
  {
    if rows == [] then None
    else if rows[0].audioId == audioId && rows[0].genreId == genreId then Some(rows[0])
    else Find(rows[1..], audioId, genreId)
  }

  /** The table with the row keyed (audioId, genreId) taken out, order kept. */
  function Without(rows: seq<AudioGenre>, audioId: int, genreId: int): (r: seq<AudioGenre>)
    ensures forall x :: x in r <==> x in rows && x != AudioGenre(audioId, genreId)
    ensures |r| <= |rows|
  {
    if rows == [] then []
    else if rows[0] == AudioGenre(audioId, genreId) then Without(rows[1..], audioId, genreId)
    else [rows[0]] + Without(rows[1..], audioId, genreId)
  }

  /** Taking out a key that is not there leaves the table exactly as it was. */
  lemma {:induction false} WithoutAbsent(rows: seq<AudioGenre>, audioId: int, genreId: int)
    requires AudioGenre(audioId, genreId) !in rows
    ensures Without(rows, audioId, genreId) == rows
  {
    if rows != [] {
      assert rows[0] in rows;
      assert forall x :: x in rows[1..] ==> x in rows;
      WithoutAbsent(rows[1..], audioId, genreId);
      assert rows == [rows[0]] + rows[1..];
    }
  }

  /** Removing a key twice has the effect of removing it once. */
  lemma WithoutIdempotent(rows: seq<AudioGenre>, audioId: int, genreId: int)
    ensures Without(Without(rows, audioId, genreId), audioId, genreId) == Without(rows, audioId, genreId)
  {
  }

  /** In a table with unique keys, removing the key of row i removes exactly that row. */
  lemma {:induction false} WithoutAt(rows: seq<AudioGenre>, i: int)
    requires Distinct(rows) && 0 <= i < |rows|
    ensures Without(rows, rows[i].audioId, rows[i].genreId) == rows[..i] + rows[i + 1..]
  {
    var key := rows[i];
    if i == 0 {
      assert key !in rows[1..] by {
        forall k | 0 <= k < |rows[1..]| ensures rows[1..][k] != key {
          assert rows[1..][k] == rows[k + 1];
        }
      }
      WithoutAbsent(rows[1..], key.audioId, key.genreId);
    } else {
      var tail := rows[1..];
      assert Distinct(tail) by {
        forall a, b | 0 <= a < b < |tail| ensures tail[a] != tail[b] {
          assert tail[a] == rows[a + 1] && tail[b] == rows[b + 1];
        }
      }
      assert tail[i - 1] == key;
      WithoutAt(tail, i - 1);
      assert rows[0] != key;
      assert rows[..i] == [rows[0]] + tail[..i - 1];
      assert rows[i + 1..] == tail[i..];
    }
  }

  /** Removing a key keeps the remaining keys unique. */
  lemma {:induction false} WithoutKeepsDistinct(rows: seq<AudioGenre>, audioId: int, genreId: int)
    requires Distinct(rows)
    ensures Distinct(Without(rows, audioId, genreId))
  {
    if rows != [] {
      var tail := rows[1..];
      assert Distinct(tail) by {
        forall a, b | 0 <= a < b < |tail| ensures tail[a] != tail[b] {
          assert tail[a] == rows[a + 1] && tail[b] == rows[b + 1];
        }
      }
      WithoutKeepsDistinct(tail, audioId, genreId);
      if rows[0] != AudioGenre(audioId, genreId) {
        var rest := Without(tail, audioId, genreId);
        assert rows[0] !in tail by {
          forall k | 0 <= k < |tail| ensures tail[k] != rows[0] {
            assert tail[k] == rows[k + 1];
          }
        }
        var r := [rows[0]] + rest;
        forall a, b | 0 <= a < b < |r| ensures r[a] != r[b] {
          assert r[b] == rest[b - 1];
          if a > 0 {
            assert r[a] == rest[a - 1];
          } else {
            assert rest[b - 1] in rest;
          }
        }
      }
    }
  }

  // ---------------------------------------------------------------------------
  // Per-song genre lists
  // ---------------------------------------------------------------------------

  /** The rows of one song, in table order: the `Where(ag => ag.AudioId == audioId)` filter. */
  function SongRows(rows: seq<AudioGenre>, audioId: int): (r: seq<AudioGenre>)
    ensures forall x :: x in r <==> x in rows && x.audioId == audioId
    ensures |r| <= |rows|
  {
    if rows == [] then []
    else
      var last := rows[|rows| - 1];
      SongRows(rows[..|rows| - 1], audioId) + (if last.audioId == audioId then [last] else [])
  }

  /** What one row adds to the list of `audioId`: its genre if the row is the song's and the genre resolves. */
  function Resolve(row: AudioGenre, genres: map<int, Genre>, audioId: int): seq<Genre> {
    if row.audioId == audioId && row.genreId in genres then [genres[row.genreId]] else []
  }

  /**
   * The genre list of one song: for every row of the song, in table order,
   * the genre it names, with rows whose genre does not resolve skipped.
   */
  function GenresOf(rows: seq<AudioGenre>, genres: map<int, Genre>, audioId: int): (r: seq<Genre>)
    ensures |r| <= |SongRows(rows, audioId)|
    ensures forall k :: 0 <= k < |r| ==> r[k] in genres.Values
  {
    if rows == [] then []
    else GenresOf(rows[..|rows| - 1], genres, audioId) + Resolve(rows[|rows| - 1], genres, audioId)
  }

  /** A list of the table is made of the list of its first part followed by that of the rest: order follows the table. */
  lemma {:induction false} GenresOfAppend(a: seq<AudioGenre>, b: seq<AudioGenre>, genres: map<int, Genre>, audioId: int)
    ensures GenresOf(a + b, genres, audioId) == GenresOf(a, genres, audioId) + GenresOf(b, genres, audioId)
  {
    if b == [] {
      assert a + b == a;
    } else {
      var front := b[..|b| - 1];
      assert (a + b)[..|a + b| - 1] == a + front;
      assert (a + b)[|a + b| - 1] == b[|b| - 1];
      GenresOfAppend(a, front, genres, audioId);
    }
  }

  /** A genre is in the list of a song exactly when some row of that song names it and it resolves. */
  lemma {:induction false} GenresOfMember(rows: seq<AudioGenre>, genres: map<int, Genre>, audioId: int, g: Genre)
    ensures g in GenresOf(rows, genres, audioId) <==>
            exists x :: x in rows && x.audioId == audioId && x.genreId in genres && genres[x.genreId] == g
  {
    if rows != [] {
      var front := rows[..|rows| - 1];
      var last := rows[|rows| - 1];
      GenresOfMember(front, genres, audioId, g);
      assert rows == front + [last];
      assert forall x :: x in rows <==> x in front || x == last;
    }
  }

  /** A song without rows gets an empty list. */
  lemma {:induction false} GenresOfNoRows(rows: seq<AudioGenre>, genres: map<int, Genre>, audioId: int)
    requires forall x :: x in rows ==> x.audioId != audioId
    ensures GenresOf(rows, genres, audioId) == []
  {
    if rows != [] {
      var front := rows[..|rows| - 1];
      assert forall x :: x in front ==> x in rows;
      assert rows[|rows| - 1] in rows;
      GenresOfNoRows(front, genres, audioId);
    }
  }

  /**
   * A list is never longer than the song's rows, and is exactly as long
   * precisely when every row of the song names a genre that resolves.
   */
  lemma {:induction false} GenresOfLength(rows: seq<AudioGenre>, genres: map<int, Genre>, audioId: int)
    ensures |GenresOf(rows, genres, audioId)| <= |SongRows(rows, audioId)|
    ensures |GenresOf(rows, genres, audioId)| == |SongRows(rows, audioId)| <==>
            forall x :: x in rows && x.audioId == audioId ==> x.genreId in genres
  {
    if rows != [] {
      var front := rows[..|rows| - 1];
      var last := rows[|rows| - 1];
      GenresOfLength(front, genres, audioId);
      assert rows == front + [last];
      assert forall x :: x in rows <==> x in front || x == last;
    }
  }

  /** How many entries of a genre list carry the genre id `id`. */
  function CountId(gs: seq<Genre>, id: int): nat {
    if gs == [] then 0
    else CountId(gs[..|gs| - 1], id) + (if gs[|gs| - 1].id == id then 1 else 0)
  }

  /** Every genre is stored under its own id. */
  predicate KeyedById(genres: map<int, Genre>) {
    forall k :: k in genres ==> genres[k].id == k
  }

  /**
   * With genres stored under their own ids, every genre listed for a song is
   * named by a row of that song: the list carries no genre the song's rows do
   * not point at.
   */
  lemma {:induction false} GenresOfNamedByRows(rows: seq<AudioGenre>, genres: map<int, Genre>, audioId: int)
    requires KeyedById(genres)
    ensures forall k :: 0 <= k < |GenresOf(rows, genres, audioId)| ==>
              AudioGenre(audioId, GenresOf(rows, genres, audioId)[k].id) in rows
  {
    var r := GenresOf(rows, genres, audioId);
    forall k | 0 <= k < |r| ensures AudioGenre(audioId, r[k].id) in rows {
      GenresOfMember(rows, genres, audioId, r[k]);
      var x :| x in rows && x.audioId == audioId && x.genreId in genres && genres[x.genreId] == r[k];
      assert x == AudioGenre(audioId, r[k].id);
    }
  }

  /** How many rows of the table equal `x`. */
  function Occurrences(rows: seq<AudioGenre>, x: AudioGenre): nat {
    if rows == [] then 0
    else Occurrences(rows[..|rows| - 1], x) + (if rows[|rows| - 1] == x then 1 else 0)
  }

  /** The number of times genre `genreId` appears in a song's list is the number of rows (audioId, genreId), or 0 if the genre does not resolve. */
  lemma {:induction false} GenresOfCount(rows: seq<AudioGenre>, genres: map<int, Genre>, audioId: int, genreId: int)
    requires KeyedById(genres)
    ensures CountId(GenresOf(rows, genres, audioId), genreId) ==
            if genreId in genres then Occurrences(rows, AudioGenre(audioId, genreId)) else 0
  {
    if rows != [] {
      var front := rows[..|rows| - 1];
      var last := rows[|rows| - 1];
      GenresOfCount(front, genres, audioId, genreId);
      var gs := GenresOf(front, genres, audioId);
      var step := Resolve(last, genres, audioId);
      if step == [] {
        assert gs + step == gs;
      } else {
        assert genres[last.genreId].id == last.genreId;
        assert (gs + step)[..|gs + step| - 1] == gs;
      }
    }
  }

  /** In a table with unique keys every stored row occurs once. */
  lemma {:induction false} DistinctOccursOnce(rows: seq<AudioGenre>, x: AudioGenre)
    requires Distinct(rows) && x in rows
    ensures Occurrences(rows, x) == 1
  {
    var front := rows[..|rows| - 1];
    var last := rows[|rows| - 1];
    assert Distinct(front) by {
      forall a, b | 0 <= a < b < |front| ensures front[a] != front[b] {
        assert front[a] == rows[a] && front[b] == rows[b];
      }
    }
    if x == last {
      assert x !in front by {
        forall k | 0 <= k < |front| ensures front[k] != x {
          assert front[k] == rows[k];
        }
      }
      OccurrencesAbsent(front, x);
    } else {
      assert rows == front + [last];
      DistinctOccursOnce(front, x);
    }
  }

  /** A row that is not in the table occurs zero times. */
  lemma {:induction false} OccurrencesAbsent(rows: seq<AudioGenre>, x: AudioGenre)
    requires x !in rows
    ensures Occurrences(rows, x) == 0
  {
    if rows != [] {
      var front := rows[..|rows| - 1];
      assert forall y :: y in front ==> y in rows;
      OccurrencesAbsent(front, x);
    }
  }

  /** A stored pair whose genre resolves appears exactly once in its song's list. */
  lemma PairListedOnce(rows: seq<AudioGenre>, genres: map<int, Genre>, audioId: int, genreId: int)
    requires Distinct(rows) && KeyedById(genres)
    requires AudioGenre(audioId, genreId) in rows && genreId in genres
    ensures CountId(GenresOf(rows, genres, audioId), genreId) == 1
  {
    GenresOfCount(rows, genres, audioId, genreId);
    DistinctOccursOnce(rows, AudioGenre(audioId, genreId));
  }

  // ---------------------------------------------------------------------------
  // The bulk lookup: one dictionary entry per requested song
  // ---------------------------------------------------------------------------

  /**
   * The dictionary built by adding, for each requested song id in turn, the
   * song's genre list; adding an id a second time fails with DuplicateKey.
   */
  function GenreIndex(rows: seq<AudioGenre>, genres: map<int, Genre>, audioIds: seq<int>): (r: Result<map<int, seq<Genre>>, Error>)
    ensures r.Success? ==> forall id :: id in r.value <==> id in audioIds
    ensures r.Failure? ==> r.error.DuplicateKey? && r.error.key in audioIds
  {
    if audioIds == [] then Success(map[])
    else
      var last := audioIds[|audioIds| - 1];
      match GenreIndex(rows, genres, audioIds[..|audioIds| - 1])
      case Failure(e) => Failure(e)
      case Success(m) =>
        if last in m then Failure(DuplicateKey(last))
        else Success(m[last := GenresOf(rows, genres, last)])
  }

  /**
   * The lookup succeeds exactly when no id is requested twice; then its key set
   * is the set of requested ids and each key maps to that song's genre list.
   */
  lemma {:induction false} GenreIndexSucceeds(rows: seq<AudioGenre>, genres: map<int, Genre>, audioIds: seq<int>)
    ensures GenreIndex(rows, genres, audioIds).Success? <==> Distinct(audioIds)
    ensures GenreIndex(rows, genres, audioIds).Success? ==>
            var m := GenreIndex(rows, genres, audioIds).value;
            && m.Keys == (set id | id in audioIds)
            && forall id :: id in m ==> m[id] == GenresOf(rows, genres, id)
  {
    if audioIds != [] {
      var front := audioIds[..|audioIds| - 1];
      var last := audioIds[|audioIds| - 1];
      GenreIndexSucceeds(rows, genres, front);
      assert audioIds == front + [last];
      if Distinct(audioIds) {
        assert Distinct(front) by {
          forall a, b | 0 <= a < b < |front| ensures front[a] != front[b] {
            assert front[a] == audioIds[a] && front[b] == audioIds[b];
          }
        }
        assert last !in front by {
          forall k | 0 <= k < |front| ensures front[k] != last {
            assert front[k] == audioIds[k];
          }
        }
      }
      if Distinct(front) && last !in front {
        forall a, b | 0 <= a < b < |audioIds| ensures audioIds[a] != audioIds[b] {
          if b < |front| {
            assert audioIds[a] == front[a] && audioIds[b] == front[b];
          } else {
            assert audioIds[a] == front[a];
          }
        }
      }
    }
  }

  /** Once adding some prefix of the ids has failed, the whole lookup fails with the same error. */
  lemma {:induction false} GenreIndexFailureSticks(rows: seq<AudioGenre>, genres: map<int, Genre>, audioIds: seq<int>, k: int)
    requires 0 <= k <= |audioIds|
    requires GenreIndex(rows, genres, audioIds[..k]).Failure?
    ensures GenreIndex(rows, genres, audioIds) == GenreIndex(rows, genres, audioIds[..k])
    decreases |audioIds| - k
  {
    if k < |audioIds| {
      assert audioIds[..k + 1][..k] == audioIds[..k];
      GenreIndexFailureSticks(rows, genres, audioIds, k + 1);
    } else {
      assert audioIds[..k] == audioIds;
    }
  }

  /** When the first repeated id is at position j, the lookup fails with DuplicateKey of that id. */
  lemma GenreIndexFirstDuplicate(rows: seq<AudioGenre>, genres: map<int, Genre>, audioIds: seq<int>, j: int)
    requires 0 <= j < |audioIds|
    requires Distinct(audioIds[..j]) && audioIds[j] in audioIds[..j]
    ensures GenreIndex(rows, genres, audioIds) == Failure(DuplicateKey(audioIds[j]))
  {
    var prefix := audioIds[..j + 1];
    GenreIndexSucceeds(rows, genres, audioIds[..j]);
    var m := GenreIndex(rows, genres, audioIds[..j]).value;
    assert audioIds[j] in m;
    assert prefix[..j] == audioIds[..j] && prefix[j] == audioIds[j];
    assert GenreIndex(rows, genres, prefix) == Failure(DuplicateKey(audioIds[j]));
    GenreIndexFailureSticks(rows, genres, audioIds, j + 1);
  }

  /** The scenario of a song with two genres: requested alone and with a song that has none. */
  lemma RockJazzScenario()
    ensures GenreIndex([AudioGenre(10, 1), AudioGenre(10, 2)],
                       map[1 := Genre(1, "Rock"), 2 := Genre(2, "Jazz")], [10, 99])
         == Success(map[10 := [Genre(1, "Rock"), Genre(2, "Jazz")], 99 := []])
  {
    var rows := [AudioGenre(10, 1), AudioGenre(10, 2)];
    var genres := map[1 := Genre(1, "Rock"), 2 := Genre(2, "Jazz")];
    assert rows[..1] == [AudioGenre(10, 1)];
    assert rows[..1][..0] == [];
    assert GenresOf(rows, genres, 10) == [Genre(1, "Rock"), Genre(2, "Jazz")];
    assert GenresOf(rows, genres, 99) == [];
    assert [10, 99][..1] == [10];
    assert [10][..0] == [];
  }
}
