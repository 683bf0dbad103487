/** The stored entities and the database context that holds their tables. */
module Entities {

  /** A row of the song-genre join table; the pair itself is the composite key. */
  datatype AudioGenre = AudioGenre(audioId: int, genreId: int)

  /** A row of the Genre table (and the GenreDTO copied from it). */
  datatype Genre = Genre(id: int, name: string)

  /** A row of the Users table. `password` holds what the account service stored. */
  datatype User = User(
    id: int,
    login: string,
    password: string,
    salt: string,
    imageId: int,
    isAdmin: bool,
    isAuth: bool)

  /** The database context: the AudioGenre set in store order and the Genre set by id. */
  class UserContext {
    var audioGenre: seq<AudioGenre>
    var genre: map<int, Genre>

    constructor (audioGenre: seq<AudioGenre>, genre: map<int, Genre>)
      ensures this.audioGenre == audioGenre && this.genre == genre
    {
      this.audioGenre := audioGenre;
      this.genre := genre;
    }
  }
}
