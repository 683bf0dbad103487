# Music portal: song-genre associations and the account flow, in Dafny

This project models two parts of a browser-based music catalog written in C#
on ASP.NET Core and Entity Framework.

1. **The song-genre association table.** It is a join table whose composite
   key is `(AudioId, GenreId)`.
   - `AudioGenreRepository` gets, lists, creates and deletes rows over the
     database context.
   - `AudioGenreService` copies the rows into DTOs. It also answers the bulk
     lookup `GetGenreBySongs`: for each requested song id it gives that song's
     genres. It works from one snapshot of the table and looks each genre up
     in the Genre table, silently skipping a genre that no longer resolves.
2. **The account controller.** It covers sign-up, sign-in with its session
   writes, confirmation of an account (`AuthUser`), `Edit` and `Delete`, over
   a user table, an image table and the session. None of these actions reads
   the caller's IsAdmin flag, so any caller can confirm, edit or delete a user.

Modules:

- `Common` (common.dfy): Option, Result, the exceptions that escape, and `Distinct`.
- `Entities` (entities.dfy): the rows `AudioGenre`, `Genre` and `User`, and
  `UserContext`, the database context that holds the AudioGenre and Genre sets.
- `AudioGenreTable` (audio_genre_table.dfy): the table as a value. It defines
  lookup by key (`Find`), removal of a key (`Without`), the per-song list
  (`GenresOf`) and the whole bulk lookup (`GenreIndex`), with the lemmas
  about them.
- `Repositories` (audio_genre_repository.dfy): the class `AudioGenreRepository`,
  whose methods change the context in place. It also holds `GenreRepository`,
  reduced to the `GetById` lookup that `AudioGenreService` uses; its source
  file is not part of this model.
- `Services` (audio_genre_service.dfy): the class `AudioGenreService`. It
  implements `GetGenreBySongs` with the source's nested loops, proved equal
  to `GenreIndex`. The inner loop is its own method, `CollectGenres`.
- `Text` (text.dfy): `Int32.ToString()` and `Boolean.ToString()`, the forms
  the session values take, with a proof that an id's string form reads back
  as that id.
- `Controllers` (account_controller.dfy): the class `AccountController`, with
  the user table, the image table and the session as fields.

Calls into code the model cannot see are handled as follows:

- The account service's password hashing and `ValidateUserPassword` are
  function-valued constants of the controller. Nothing is assumed about them.
- The random avatar file name (a GUID plus the upload's extension) is a parameter.
- Whether the form passed validation (`ModelState.IsValid`) is a parameter.
- Whether the store rejects the new user's insert is a parameter.

The bulk lookup raises an exception when the same song id is requested twice.
The model follows the code here rather than describing the input as a set of
ids. Sign-in also follows the code: it writes the session itself instead of
returning a session value.

## Model

| member | source | states |
|---|---|---|
| AudioGenreTable.Find | MusicPortal.DLL/Repositories/AudioGenreRepository.cs:26-29 | finds a row exactly when the pair (audioId, genreId) is stored, and the row it returns carries exactly that key |
| AudioGenreTable.Without | MusicPortal.DLL/Repositories/AudioGenreRepository.cs:47-55 | after removing a key, the table holds every other row and never the removed one |
| AudioGenreTable.WithoutAbsent | MusicPortal.DLL/Repositories/AudioGenreRepository.cs:49-54 | removing a key that is not stored leaves the table exactly as it was |
| AudioGenreTable.WithoutIdempotent | MusicPortal.DLL/Repositories/AudioGenreRepository.cs:47-55 | deleting a key twice has the same effect as deleting it once |
| AudioGenreTable.WithoutAt | MusicPortal.DLL/Repositories/AudioGenreRepository.cs:50-53 | with unique keys, deleting the key of row i removes exactly that row and keeps the others in order |
| AudioGenreTable.WithoutKeepsDistinct | MusicPortal.DLL/Repositories/AudioGenreRepository.cs:47-55 | deleting keeps the composite key unique |
| AudioGenreTable.SongRows | MusicPortal.BLL/Services/AudioGenreService.cs:86 | the `Where` filter keeps exactly the rows of the requested song |
| AudioGenreTable.GenresOf | MusicPortal.BLL/Services/AudioGenreService.cs:86-96 | a song's genre list, built by the inner loop: it is never longer than the song's rows, and every entry is a stored genre |
| AudioGenreTable.GenresOfAppend | MusicPortal.BLL/Services/AudioGenreService.cs:86-96 | a song's genre list follows snapshot order: the list for a concatenation is the list for the first part followed by the list for the second |
| AudioGenreTable.GenresOfMember | MusicPortal.BLL/Services/AudioGenreService.cs:86-96 | a genre is in a song's list if and only if some row of that song names a genre id that resolves to it |
| AudioGenreTable.GenresOfNoRows | MusicPortal.BLL/Services/AudioGenreService.cs:84-99 | a song with no rows gets an empty list |
| AudioGenreTable.GenresOfLength | MusicPortal.BLL/Services/AudioGenreService.cs:88-89 | dangling rows are skipped: a list is never longer than the song's rows, and is equally long exactly when every row of the song resolves |
| AudioGenreTable.GenresOfCount | MusicPortal.BLL/Services/AudioGenreService.cs:86-96 | when genres are stored under their own ids, genre g occurs in song a's list as often as the row (a, g) occurs in the table, or 0 times if g does not resolve |
| AudioGenreTable.PairListedOnce | MusicPortal.BLL/Services/AudioGenreService.cs:76-103 | a stored pair whose genre resolves is listed exactly once for its song |
| AudioGenreTable.GenresOfNamedByRows | MusicPortal.DLL/Repositories/AudioGenreRepository.cs:66-71 | when genres are stored under their own ids, every genre listed for a song is named by one of that song's rows, as the foreign-key navigation guarantees |
| AudioGenreTable.GenreIndex | MusicPortal.BLL/Services/AudioGenreService.cs:80-101 | the dictionary the outer loop builds: on success its keys are exactly the requested ids; a failure is always DuplicateKey of a requested id |
| AudioGenreTable.GenreIndexSucceeds | MusicPortal.BLL/Services/AudioGenreService.cs:80-101 | the bulk lookup succeeds if and only if no id repeats; its key set is then exactly the requested ids, and each id maps to its song's genre list |
| AudioGenreTable.GenreIndexFirstDuplicate | MusicPortal.BLL/Services/AudioGenreService.cs:99 | when the first repeated id is at position j, the lookup fails with DuplicateKey of that id |
| AudioGenreTable.RockJazzScenario | MusicPortal.BLL/Services/AudioGenreService.cs:76-103 | song 10 with Rock then Jazz, requested with song 99, gives {10: [Rock, Jazz], 99: []} |
| Repositories.AudioGenreRepository.GetAll | MusicPortal.DLL/Repositories/AudioGenreRepository.cs:20-23 | returns every stored association, in store order |
| Repositories.AudioGenreRepository.GetById | MusicPortal.DLL/Repositories/AudioGenreRepository.cs:26-29 | returns the association keyed exactly (audioId, genreId), or null when there is none |
| Repositories.AudioGenreRepository.Create | MusicPortal.DLL/Repositories/AudioGenreRepository.cs:32-37 | a new pair is appended and the very value passed in is returned; a key already stored is rejected and the table is unchanged; either way the pair is in the table afterwards |
| Repositories.AudioGenreRepository.Delete | MusicPortal.DLL/Repositories/AudioGenreRepository.cs:47-55 | removes the pair if it is present, leaves the other rows untouched and in order, and is a no-op for an absent pair |
| Repositories.AudioGenreRepository.GetGenreBySong | MusicPortal.DLL/Repositories/AudioGenreRepository.cs:58-79 | the loop builds exactly GenreIndex: one key per requested id, each mapped to that song's joined genres, and a repeated id fails at the dictionary's Add |
| Repositories.GenreRepository.GetById | MusicPortal.BLL/Services/AudioGenreService.cs:88 | returns the genre stored under the id, whose own id is that id, or null exactly when no genre has that id |
| Services.AudioGenreService.GetById | MusicPortal.BLL/Services/AudioGenreService.cs:25-33 | returns a DTO with the stored pair's keys exactly when the pair exists; an absent pair is a NullReference error, not an empty result |
| Services.AudioGenreService.GetAll | MusicPortal.BLL/Services/AudioGenreService.cs:35-48 | returns one DTO per stored association, in store order, with the same AudioId and GenreId |
| Services.AudioGenreService.Create | MusicPortal.BLL/Services/AudioGenreService.cs:50-59 | stores the pair built from the DTO and returns the DTO's AudioId; a stored key is rejected and the table is unchanged |
| Services.AudioGenreService.Delete | MusicPortal.BLL/Services/AudioGenreService.cs:71-74 | forwards to the repository, so it is a no-op when the pair is absent |
| Services.AudioGenreService.CollectGenres | MusicPortal.BLL/Services/AudioGenreService.cs:84-96 | the inner loop over the snapshot computes exactly the song's genre list GenresOf, skipping lookups that miss |
| Services.AudioGenreService.GetGenreBySongs | MusicPortal.BLL/Services/AudioGenreService.cs:76-103 | the snapshot-then-filter nested loops, with the genre lookup skipping misses, compute exactly GenreIndex over the snapshot and the Genre table |
| Text.IntToStringRoundTrip | Web/Controllers/AccountController.cs:147 | the decimal string written for a user id reads back as that id |
| Controllers.FindByLogin | Web/Controllers/AccountController.cs:40-41 | finds a user exactly when some user has that login; the user it returns has that login and is the first such user in table order |
| Controllers.IndexOfId | Web/Controllers/AccountController.cs:186-190 | finds a position exactly when some user has that id, and the user at that position has the id |
| Controllers.WithoutId | Web/Controllers/AccountController.cs:328-332 | after deleting, the table holds every user whose id differs and no user with that id |
| Controllers.WithoutIdAbsent | Web/Controllers/AccountController.cs:328-332 | deleting an id that no user has leaves the user table exactly as it was |
| Controllers.WithoutIdAt | Web/Controllers/AccountController.cs:328-332 | with unique ids, deleting the id of the user at position i removes exactly that user and keeps the others in order |
| Controllers.SignedIn | Web/Controllers/AccountController.cs:142-149 | after sign-in the session holds Login, UserId (reads back as the user's id), UserImage and IsAdmin ("True"/"False") for the found user, and every other key is as before |
| Controllers.WithoutIdKeepsIdsUnique | Web/Controllers/AccountController.cs:328-332 | deleting a user keeps user ids unique |
| Controllers.AddFreeLoginKeepsLoginsUnique | Web/Controllers/AccountController.cs:40-47 | adding a user whose login is not taken keeps logins unique |
| Controllers.EditCanDuplicateLogin | Web/Controllers/AccountController.cs:304-313 | Edit does not check the new login: in any table with unique logins, posting another user's login for user i gives two users the same login |
| Controllers.AccountController.SaveImage | Web/Controllers/AccountController.cs:59-72 | a missing upload fails on reading its file name; otherwise one image is recorded under a fresh id with path "/images/" + generated name, and that id is returned |
| Controllers.AccountController.CreateUser | Web/Controllers/AccountController.cs:75-93 | the image is saved first; then, unless the store rejects the insert, one user is added with a fresh id, the salted hash of the password, the new image, IsAdmin false and IsAuth false |
| Controllers.AccountController.SignUp | Web/Controllers/AccountController.cs:33-56 | an invalid form, a taken login and a missing upload each show the form and create no user; a rejected insert keeps the saved image but adds no user; otherwise exactly one user is added and the caller goes to sign-in; unique logins stay unique; the session is untouched |
| Controllers.AccountController.AuthenticateUser | Web/Controllers/AccountController.cs:124-151 | an unknown login or a wrong password returns the form with that error and leaves the session unchanged; a match writes the session per SignedIn and goes home; an avatar that does not resolve fails after only Login was written |
| Controllers.AccountController.SignIn | Web/Controllers/AccountController.cs:105-121 | an empty user table redirects to sign-up whatever the credentials, before validation; an invalid form is shown again; otherwise it behaves as AuthenticateUser; users and images never change |
| Controllers.AccountController.AuthUser | Web/Controllers/AccountController.cs:183-196 | an unknown id gives NotFound and changes nothing; a known id sets that user's IsAuth and leaves that user's other fields and all other users unchanged |
| Controllers.AccountController.Edit | Web/Controllers/AccountController.cs:293-325 | NotFound when the route id differs from the posted id or the user is missing; an invalid form is shown again; otherwise only Login, Password and IsAdmin of the stored user are overwritten |
| Controllers.AccountController.Delete | Web/Controllers/AccountController.cs:328-332 | removes the user with that id, keeping the other users in order, and goes back to the confirmation list; an absent id leaves the table unchanged; unique ids stay unique |

## Left out

- Async `Task` wrappers and Entity Framework mechanics (`SaveChangesAsync`,
  `FindAsync`, `Include`, entry states) are left out. Every repository call
  acts at once on an in-memory table.
- `Update` of an association (MusicPortal.DLL/Repositories/AudioGenreRepository.cs:40-44,
  MusicPortal.BLL/Services/AudioGenreService.cs:61-69) is left out. The row
  has only key columns, and what happens for a missing row is decided by the
  framework, which is not part of this model.
- Foreign keys to the Audio and Genre tables are not checked on Create. The
  only store constraint modelled is the unique composite key.
- The repository's `GetGenreBySong` joins through a required foreign key,
  which is an inner join. The model therefore skips rows whose genre does not
  resolve, as the service does. With the foreign key in force no such row exists.
- Genre, song and image services, the unit-of-work wiring, and the
  HomeController and GenresController are not part of this model.
- The account service (`GetByLogin`, `GetById`, `GetAll`, `Create`, `Update`,
  `Delete`) is not part of this model. Its assumed behaviour:
  - lookups return the first matching user, or null;
  - `Create` assigns the next id and stores the salted hash and salt, with
    IsAdmin and IsAuth false;
  - `Update` writes the record back under its id;
  - `Delete` removes the user with that id and does nothing when there is none.
- Image lookups by id return null for a missing id, as the null check at
  Web/Controllers/AccountController.cs:219 expects.
- Controllers.AccountController.AuthenticateUser: the missing-image case
  describes the in-memory session only. Whether the web host commits a session
  written before an unhandled exception is outside the model.
- Password hashing and `ValidateUserPassword` are uninterpreted. `Edit` stores
  the posted password as given, because the model does not know what the
  service's `Update` does with it.
- File streams and the GUID file name in `SaveImage` are left out. The
  generated name is a parameter. The only failure modelled is a missing
  upload; a failing file write is not.
- Presentation is left out: the GET actions, `ConfirmUsers`, `Index`,
  `Details`, the `Create` stubs, the image-path dictionaries built for views,
  message texts, view paths, anti-forgery and validation attributes. Form
  validity is a boolean parameter.
- `Edit` answering NotFound on `DbUpdateConcurrencyException` is left out,
  and so is the race between the login check and the insert in `SignUp`.
  Both are concurrency concerns; the insert being rejected is a parameter.
- "Store order" means insertion order. `GetAll` calls `ToListAsync` without
  an `OrderBy` (MusicPortal.DLL/Repositories/AudioGenreRepository.cs:22), so
  the database guarantees no order. The order of each song's genre list
  (`GenresOfAppend`, `RockJazzScenario`) holds only for a store that returns
  rows in the order they were added.
- Ids are unbounded integers. Overflow of the 32-bit identity counters is not modelled.
