/**
 * The data-access layer for the song-genre join table, over the database
 * context's AudioGenre and Genre sets. Every write is saved at once.
 */
module Repositories {
  import opened Common
  import opened Entities
  import opened AudioGenreTable

  /** Repository of the join table keyed by (AudioId, GenreId). */
  class AudioGenreRepository {
    const context: UserContext

    /**
     * The store keeps the composite key unique, and every genre is stored
     * under its own id, so a row's navigation reaches the genre it names.
     */
    ghost predicate Valid()
      reads this, context
    {
      Distinct(context.audioGenre) && KeyedById(context.genre)
    }

    constructor (context: UserContext)
      requires Distinct(context.audioGenre) && KeyedById(context.genre)
      ensures this.context == context && Valid()
    {
      this.context := context;
    }

    /** Every stored association, in store order. */
    method GetAll() returns (all: seq<AudioGenre>)
      ensures all == context.audioGenre
    {
      all := context.audioGenre;
    }

    /** The association whose composite key is exactly (audioId, genreId), or null. */
    method GetById(audioId: int, genreId: int) returns (r: Option<AudioGenre>)
      ensures r.Some? <==> AudioGenre(audioId, genreId) in context.audioGenre
      ensures r.Some? ==> r.value == AudioGenre(audioId, genreId)
    {
      r := Find(context.audioGenre, audioId, genreId);
    }

    /**
     * Adds the association and saves; returns the very association added.
     * A key already in the table is rejected by the store and nothing changes.
     */
    method Create(audioGenre: AudioGenre) returns (r: Result<AudioGenre, Error>)
      requires Valid()
      modifies context`audioGenre
      ensures Valid()
      ensures audioGenre in context.audioGenre
      ensures old(audioGenre in context.audioGenre) ==>
                r == Failure(ConstraintViolation) && context.audioGenre == old(context.audioGenre)
      ensures old(audioGenre !in context.audioGenre) ==>
                r == Success(audioGenre) && context.audioGenre == old(context.audioGenre) + [audioGenre]
    {
      if audioGenre in context.audioGenre {
        return Failure(ConstraintViolation);
      }
      context.audioGenre := context.audioGenre + [audioGenre];
      r := Success(audioGenre);
    }

    /** Removes the association keyed (audioId, genreId) if there is one; otherwise does nothing. */
    method Delete(audioId: int, genreId: int)
      requires Valid()
      modifies context`audioGenre
      ensures Valid()
      ensures context.audioGenre == Without(old(context.audioGenre), audioId, genreId)
      ensures AudioGenre(audioId, genreId) !in context.audioGenre
      ensures old(AudioGenre(audioId, genreId) !in context.audioGenre) ==> context.audioGenre == old(context.audioGenre)
    {
      var audioGenre := Find(context.audioGenre, audioId, genreId);
      if audioGenre.Some? {
        WithoutKeepsDistinct(context.audioGenre, audioId, genreId);
        context.audioGenre := Without(context.audioGenre, audioId, genreId);
      } else {
        WithoutAbsent(context.audioGenre, audioId, genreId);
      }
    }

    /**
     * For each requested song id in turn, queries the song's rows joined with
     * their genres and adds the list under that id; a repeated id fails at the
     * dictionary's Add.
     */
    method GetGenreBySong(audioIds: seq<int>) returns (r: Result<map<int, seq<Genre>>, Error>)
      requires Valid()
      ensures r == GenreIndex(context.audioGenre, context.genre, audioIds)
    {
      var genresByAudios: map<int, seq<Genre>> := map[];
      var i := 0;
      while i < |audioIds|
        invariant 0 <= i <= |audioIds|
        invariant GenreIndex(context.audioGenre, context.genre, audioIds[..i]) == Success(genresByAudios)
      {
        var audioId := audioIds[i];
        var genres := GenresOf(context.audioGenre, context.genre, audioId);
        assert audioIds[..i + 1][..i] == audioIds[..i];
        if audioId in genresByAudios {
          GenreIndexFailureSticks(context.audioGenre, context.genre, audioIds, i + 1);
          return Failure(DuplicateKey(audioId));
        }
        genresByAudios := genresByAudios[audioId := genres];
        i := i + 1;
      }
      assert audioIds[..i] == audioIds;
      r := Success(genresByAudios);
    }
  }

  /** The Genre table's repository, reduced to the lookup the association service uses. */
  class GenreRepository {
    const context: UserContext

    /** Every genre is stored under its own id. */
    ghost predicate Valid()
      reads this, context
    {
      KeyedById(context.genre)
    }

    constructor (context: UserContext)
      requires KeyedById(context.genre)
      ensures this.context == context && Valid()
    {
      this.context := context;
    }

    /** The genre stored under `id`, or null when there is none. */
    method GetById(id: int) returns (r: Option<Genre>)
      requires Valid()
      ensures r.Some? <==> id in context.genre
      ensures r.Some? ==> r.value == context.genre[id] && r.value.id == id
    {
      r := if id in context.genre then Some(context.genre[id]) else None;
    }
  }
}
