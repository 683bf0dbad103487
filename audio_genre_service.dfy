/**
 * The song-genre association service: DTO copies of the join table and the
 * bulk per-song genre lookup, over the unit of work's AudioGenre and Genre
 * repositories.
 */
module Services {
  import opened Common
  import opened Entities
  import opened AudioGenreTable
  import opened Repositories

  /** The association as handed to the presentation layer. */
  datatype AudioGenreDTO = AudioGenreDTO(audioId: int, genreId: int)

  class AudioGenreService {
    /** Database.AudioGenre */
    const audioGenre: AudioGenreRepository
    /** Database.Genre */
    const genre: GenreRepository

    ghost predicate Valid()
      reads this, audioGenre, audioGenre.context, genre, genre.context
    {
      audioGenre.Valid() && genre.Valid()
    }

    constructor (audioGenre: AudioGenreRepository, genre: GenreRepository)
      requires audioGenre.Valid() && genre.Valid()
      ensures this.audioGenre == audioGenre && this.genre == genre && Valid()
    {
      this.audioGenre := audioGenre;
      this.genre := genre;
    }

    /**
     * The DTO of the association keyed (audioId, genreId). When there is none
     * the repository returns null and reading its keys raises NullReference.
     */
    method GetById(audioId: int, genreId: int) returns (r: Result<AudioGenreDTO, Error>)
      ensures r.Success? <==> AudioGenre(audioId, genreId) in audioGenre.context.audioGenre
      ensures r.Success? ==> r.value == AudioGenreDTO(audioId, genreId)
      ensures r.Failure? ==> r.error == NullReference
    {
      var found := audioGenre.GetById(audioId, genreId);
      if found.None? {
        return Failure(NullReference);
      }
      r := Success(AudioGenreDTO(found.value.audioId, found.value.genreId));
    }

    /** One DTO per stored association, in store order, carrying the same keys. */
    method GetAll() returns (dtos: seq<AudioGenreDTO>)
      ensures |dtos| == |audioGenre.context.audioGenre|
      ensures forall i :: 0 <= i < |dtos| ==>
                dtos[i] == AudioGenreDTO(audioGenre.context.audioGenre[i].audioId, audioGenre.context.audioGenre[i].genreId)
    {
      var audioGenres := audioGenre.GetAll();
      dtos := [];
      var i := 0;
      while i < |audioGenres|
        invariant 0 <= i <= |audioGenres|
        invariant |dtos| == i
        invariant forall k :: 0 <= k < i ==> dtos[k] == AudioGenreDTO(audioGenres[k].audioId, audioGenres[k].genreId)
      {
        dtos := dtos + [AudioGenreDTO(audioGenres[i].audioId, audioGenres[i].genreId)];
        i := i + 1;
      }
    }

    /** Stores the pair built from the DTO and returns its AudioId; a stored key is rejected. */
    method Create(dto: AudioGenreDTO) returns (r: Result<int, Error>)
      requires Valid()
      modifies audioGenre.context`audioGenre
      ensures Valid()
      ensures AudioGenre(dto.audioId, dto.genreId) in audioGenre.context.audioGenre
      ensures old(AudioGenre(dto.audioId, dto.genreId) in audioGenre.context.audioGenre) ==>
                r == Failure(ConstraintViolation) && audioGenre.context.audioGenre == old(audioGenre.context.audioGenre)
      ensures old(AudioGenre(dto.audioId, dto.genreId) !in audioGenre.context.audioGenre) ==>
                && r == Success(dto.audioId)
                && audioGenre.context.audioGenre == old(audioGenre.context.audioGenre) + [AudioGenre(dto.audioId, dto.genreId)]
    {
      var created := audioGenre.Create(AudioGenre(dto.audioId, dto.genreId));
      if created.Failure? {
        return Failure(created.error);
      }
      r := Success(created.value.audioId);
    }

    /** Forwards to the repository: removes the pair if present, else does nothing. */
    method Delete(audioId: int, genreId: int)
      requires Valid()
      modifies audioGenre.context`audioGenre
      ensures Valid()
      ensures audioGenre.context.audioGenre == Without(old(audioGenre.context.audioGenre), audioId, genreId)
      ensures old(AudioGenre(audioId, genreId) !in audioGenre.context.audioGenre) ==>
                audioGenre.context.audioGenre == old(audioGenre.context.audioGenre)
    {
      audioGenre.Delete(audioId, genreId);
    }

    /**
     * The inner loop of GetGenreBySongs: walks the snapshot in order and, for
     * every row of the song, appends the genre its id resolves to, skipping a
     * lookup that misses.
     */
    method CollectGenres(allAudioGenres: seq<AudioGenre>, audioId: int) returns (genres: seq<Genre>)
      requires genre.Valid()
      ensures genres == GenresOf(allAudioGenres, genre.context.genre, audioId)
    {
      genres := [];
      var j := 0;
      while j < |allAudioGenres|
        invariant 0 <= j <= |allAudioGenres|
        invariant genres == GenresOf(allAudioGenres[..j], genre.context.genre, audioId)
      {
        assert allAudioGenres[..j + 1][..j] == allAudioGenres[..j];
        if allAudioGenres[j].audioId == audioId {
          var found := genre.GetById(allAudioGenres[j].genreId);
          if found.Some? {
            genres := genres + [found.value];
          }
        }
        j := j + 1;
      }
      assert allAudioGenres[..j] == allAudioGenres;
    }

    /**
     * Takes one snapshot of all associations, then for each requested song id
     * collects, in snapshot order, the genre of every association of that song
     * whose genre lookup succeeds, and adds the list under the id; a repeated
     * id fails at the dictionary's Add.
     */
    method GetGenreBySongs(audioIds: seq<int>) returns (r: Result<map<int, seq<Genre>>, Error>)
      requires Valid()
      ensures r == GenreIndex(audioGenre.context.audioGenre, genre.context.genre, audioIds)
    {
      var genresByAudios: map<int, seq<Genre>> := map[];
      var allAudioGenres := audioGenre.GetAll();
      var i := 0;
      while i < |audioIds|
        invariant 0 <= i <= |audioIds|
        invariant GenreIndex(allAudioGenres, genre.context.genre, audioIds[..i]) == Success(genresByAudios)
      {
        var audioId := audioIds[i];
        var genres := CollectGenres(allAudioGenres, audioId);
        assert audioIds[..i + 1][..i] == audioIds[..i];
        if audioId in genresByAudios {
          GenreIndexFailureSticks(allAudioGenres, genre.context.genre, audioIds, i + 1);
          return Failure(DuplicateKey(audioId));
        }
        genresByAudios := genresByAudios[audioId := genres];
        i := i + 1;
      }
      assert audioIds[..i] == audioIds;
      r := Success(genresByAudios);
    }
  }
}
