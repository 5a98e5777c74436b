/** Creation and update of rentals: validation and storage of the uploaded
    picture, and the rows written to the rentals table. */
module RentalServiceImpl {
  import opened Common
  import opened Dto
  import opened Entities
  import opened Store
  import RentalMapper

  const NotAuthenticated: string := "Utilisateur non authentifié."
  const RentalNotFound: string := "Location introuvable."
  const OnlyImages: string := "Seuls les fichiers image sont autorisés."
  const ExtensionRefused: string := "Extension de fichier non autorisée. Autorisées : jpg, jpeg, png, gif."

  /** Media types accepted for a picture start with this. */
  const ImageMediaPrefix: string := "image/"

  /** The extensions the file-name pattern accepts, in lower case. */
  const AllowedExtensions: seq<string> := ["jpg", "jpeg", "png", "gif"]

  /** The characters a regular-expression `.` does not match: the line terminators. */
  predicate IsLineTerminator(c: char) {
    c == '\n' || c == '\r' || c == '\U{0085}' || c == '\U{2028}' || c == '\U{2029}'
  }

  predicate NoLineTerminator(s: string) {
    forall i :: 0 <= i < |s| ==> !IsLineTerminator(s[i])
  }

  /** Case folding of a case-insensitive pattern without Unicode case: only ASCII
      letters fold. */
  function LowerAscii(c: char): char {
    if 'A' <= c <= 'Z' then (c as int + 32) as char else c
  }

  function LowerAsciiString(s: string): (r: string)
    ensures |r| == |s| && forall i :: 0 <= i < |s| ==> r[i] == LowerAscii(s[i])
  {
    seq(|s|, i requires 0 <= i < |s| => LowerAscii(s[i]))
  }

  /** `name` ends with a dot and `ext` in any ASCII case, with at least one
      character before the dot. */
  predicate EndsWithExtension(name: string, ext: string) {
    && |name| >= |ext| + 2
    && name[|name| - |ext| - 1] == '.'
    && LowerAsciiString(name[|name| - |ext|..]) == ext
  }

  /** The check `originalName.matches("(?i).+\\.(jpg|jpeg|png|gif)$")`, computed
      by looking at the end of the name. */
  predicate HasImageExtension(name: string) {
    && NoLineTerminator(name)
    && (EndsWithExtension(name, "jpg") || EndsWithExtension(name, "jpeg")
        || EndsWithExtension(name, "png") || EndsWithExtension(name, "gif"))
  }

  /** How a letter of the pattern matches one input character when the pattern is
      case-insensitive without Unicode case: the letter itself or, for a lower-case
      ASCII letter, its ASCII upper case. */
  predicate MatchesLetter(c: char, p: char) {
    c == p || ('a' <= p <= 'z' && c as int == p as int - 32)
  }

  /** `x` is matched, character by character, by the literal `word` of the pattern. */
  predicate MatchesWord(x: string, word: string) {
    |x| == |word| && forall i :: 0 <= i < |x| ==> MatchesLetter(x[i], word[i])
  }

  /** The language of that pattern: a non-empty run of characters other than line
      terminators, a dot, then one alternative of the group `(jpg|jpeg|png|gif)`
      matched letter by letter, and nothing after it. */
  ghost predicate MatchesImagePattern(name: string) {
    exists k :: 0 < k < |name| && name[k] == '.' && NoLineTerminator(name[..k])
                && (MatchesWord(name[k + 1..], "jpg") || MatchesWord(name[k + 1..], "jpeg")
                    || MatchesWord(name[k + 1..], "png") || MatchesWord(name[k + 1..], "gif"))
  }

  /** For a word of lower-case ASCII letters, folding the input to lower case and
      comparing is the same as matching it letter by letter. */
  lemma FoldedEqualsMatchesWord(x: string, word: string)
    requires forall j :: 0 <= j < |word| ==> 'a' <= word[j] <= 'z'
    ensures LowerAsciiString(x) == word <==> MatchesWord(x, word)
  {
  }

  /** The same, for the four alternatives at once. */
  lemma FoldedExtensionMatchesGroup(x: string)
    ensures LowerAsciiString(x) in AllowedExtensions <==>
      MatchesWord(x, "jpg") || MatchesWord(x, "jpeg") || MatchesWord(x, "png") || MatchesWord(x, "gif")
  {
    FoldedEqualsMatchesWord(x, "jpg");
    FoldedEqualsMatchesWord(x, "jpeg");
    FoldedEqualsMatchesWord(x, "png");
    FoldedEqualsMatchesWord(x, "gif");
  }

  /** A name the suffix check accepts for `ext` is matched by the pattern, with the
      dot before `ext` as the split. */
  lemma SuffixCheckGivesPattern(name: string, ext: string)
    requires ext in AllowedExtensions && NoLineTerminator(name) && EndsWithExtension(name, ext)
    ensures MatchesImagePattern(name)
  {
  }

  /** A name the pattern matches, split at the dot `k`, passes the suffix check. */
  lemma PatternGivesSuffixCheck(name: string, k: int)
    requires 0 < k < |name| && name[k] == '.' && NoLineTerminator(name[..k])
    requires MatchesWord(name[k + 1..], "jpg") || MatchesWord(name[k + 1..], "jpeg")
             || MatchesWord(name[k + 1..], "png") || MatchesWord(name[k + 1..], "gif")
    ensures HasImageExtension(name)
  {
    FoldedExtensionMatchesGroup(name[k + 1..]);
    var ext := LowerAsciiString(name[k + 1..]);
    assert name[|name| - |ext|..] == name[k + 1..];
    assert EndsWithExtension(name, ext);
    forall i | 0 <= i < |name| ensures !IsLineTerminator(name[i]) {
      if i < k {
        assert name[..k][i] == name[i];
      } else if i > k {
        assert name[k + 1..][i - k - 1] == name[i];
        assert MatchesLetter(name[i], ext[i - k - 1]);
      }
    }
  }

  /** The suffix check accepts exactly the names the pattern matches. */
  lemma {:induction false} ImageExtensionCheckIsPattern(name: string)
    ensures HasImageExtension(name) <==> MatchesImagePattern(name)
  {
    if HasImageExtension(name) {
      var ext :| ext in AllowedExtensions && EndsWithExtension(name, ext);
      SuffixCheckGivesPattern(name, ext);
    }
    if MatchesImagePattern(name) {
      var k :| 0 < k < |name| && name[k] == '.' && NoLineTerminator(name[..k])
               && (MatchesWord(name[k + 1..], "jpg") || MatchesWord(name[k + 1..], "jpeg")
                   || MatchesWord(name[k + 1..], "png") || MatchesWord(name[k + 1..], "gif"));
      PatternGivesSuffixCheck(name, k);
    }
  }

  /** Why saveFile refuses an upload. */
  datatype Refusal = NotAnImage | ExtensionNotAllowed

  /** The validation part of saveFile: the media type is checked first, then the
      original file name. */
  function CheckUpload(file: Upload): (refusal: Option<Refusal>)
    ensures refusal.None? <==>
      && file.contentType.Some? && StartsWith(file.contentType.value, ImageMediaPrefix)
      && file.originalFilename.Some? && HasImageExtension(file.originalFilename.value)
    ensures refusal == Some(NotAnImage) <==>
      file.contentType.None? || !StartsWith(file.contentType.value, ImageMediaPrefix)
  {
    if file.contentType.None? || !StartsWith(file.contentType.value, ImageMediaPrefix) then
      Some(NotAnImage)
    else if file.originalFilename.None? || !HasImageExtension(file.originalFilename.value) then
      Some(ExtensionNotAllowed)
    else
      None
  }

  /** An upload saveFile accepts: an image media type and a name in the language
      of the file-name pattern. */
  ghost predicate AcceptedUpload(file: Upload) {
    && file.contentType.Some? && StartsWith(file.contentType.value, ImageMediaPrefix)
    && file.originalFilename.Some? && MatchesImagePattern(file.originalFilename.value)
  }

  /** The validation refuses exactly the uploads outside that definition. */
  lemma CheckUploadAcceptsExactly(file: Upload)
    ensures CheckUpload(file).None? <==> AcceptedUpload(file)
  {
    if file.originalFilename.Some? {
      ImageExtensionCheckIsPattern(file.originalFilename.value);
    }
  }

  /** The name an accepted upload is stored under: a UUID, "_" and the original name. */
  function StoredFileName(uuid: string, originalName: string): (fileName: string)
    ensures StartsWith(fileName, uuid) && EndsWith(fileName, originalName)
    ensures |fileName| == |uuid| + 1 + |originalName| && fileName[|uuid|] == '_'
  {
    var fileName := uuid + "_" + originalName;
    assert fileName[..|uuid|] == uuid;
    assert fileName[|fileName| - |originalName|..] == originalName;
    fileName
  }

  /** The stored name of an accepted file still passes the name check. */
  lemma StoredNameKeepsExtension(uuid: string, originalName: string)
    requires NoLineTerminator(uuid) && HasImageExtension(originalName)
    ensures HasImageExtension(StoredFileName(uuid, originalName))
  {
  }

  /** UUIDs all have the same length, so two different UUIDs never give the same
      stored name, whatever the original names. */
  lemma StoredNamesDistinct(uuid1: string, uuid2: string, name1: string, name2: string)
    requires |uuid1| == |uuid2| && uuid1 != uuid2
    ensures StoredFileName(uuid1, name1) != StoredFileName(uuid2, name2)
  {
  }

  /** The row createRental saves: the request's fields, the owner, the picture's
      URL, one clock reading for both timestamps, and the next identity id. */
  function CreatedRental(dto: NewRentalDto, owner: UserEntity, picture: string, id: int, now: DateTime): (e: RentalEntity)
    ensures e.owner == Some(owner)
    ensures RentalMapper.ToDTO(e)
         == RentalDto(Some(id), dto.name, dto.surface, dto.price, dto.description, Some(picture), owner.id, Some(now), Some(now))
  {
    RentalMapper.ToEntity(dto).(owner := Some(owner), picture := Some(picture), createdAt := Some(now),
                                updatedAt := Some(now), id := Some(id))
  }

  /** Whether an update carries a new picture: present and not empty. */
  predicate ReplacesPicture(dto: UpdateRentalDto) {
    dto.picture.Some? && !dto.picture.value.isEmpty
  }

  /** The row updateRental saves: the four descriptive fields from the request, a
      new update time and, when given, a new picture URL. The id, the owner and
      the creation time are kept; the request's own id and owner id are ignored. */
  function UpdatedRental(row: RentalEntity, dto: UpdateRentalDto, now: DateTime, picture: Option<string>): (e: RentalEntity)
    ensures e.id == row.id && e.owner == row.owner && e.createdAt == row.createdAt
    ensures e.name == dto.name && e.surface == dto.surface && e.price == dto.price
    ensures e.description == dto.description && e.updatedAt == Some(now)
    ensures picture.Some? ==> e.picture == picture
    ensures picture.None? ==> e.picture == row.picture
  {
    var e := row.(name := dto.name, surface := dto.surface, price := dto.price,
                  description := dto.description, updatedAt := Some(now));
    if picture.Some? then e.(picture := picture) else e
  }

  /** The outcome of saveFile: the name the file was stored under, or the reason
      it was refused (thrown as an IllegalArgumentException). */
  datatype Saved = Stored(fileName: string) | Refused(reason: Refusal)

  /** Why createRental or updateRental throws. */
  datatype RentalError =
    | OwnerUnknown                    // the authenticated email has no user
    | RentalMissing                   // no rental has the requested id
    | UploadRefused(reason: Refusal)  // saveFile refused the picture

  /** The exception thrown for each error: its class and its message. */
  function Thrown(error: RentalError): (f: Failure)
    ensures error.OwnerUnknown? <==> f.kind == Runtime
    ensures error.RentalMissing? <==> f.kind == NoSuchElement
    ensures error.UploadRefused? <==> f.kind == IllegalArgument
    ensures error.OwnerUnknown? ==> f.message == NotAuthenticated
    ensures error.RentalMissing? ==> f.message == RentalNotFound
    ensures error == UploadRefused(NotAnImage) ==> f.message == OnlyImages
    ensures error == UploadRefused(ExtensionNotAllowed) ==> f.message == ExtensionRefused
  {
    match error
    case OwnerUnknown => Failure(Runtime, NotAuthenticated)
    case RentalMissing => Failure(NoSuchElement, RentalNotFound)
    case UploadRefused(NotAnImage) => Failure(IllegalArgument, OnlyImages)
    case UploadRefused(ExtensionNotAllowed) => Failure(IllegalArgument, ExtensionRefused)
  }

  /** The upload directory, as the set of names of the files it holds. */
  class PictureStore {
    var files: set<string>

    constructor (files: set<string>)
      ensures this.files == files
    {
      this.files := files;
    }

    /** Files.copy with REPLACE_EXISTING. */
    method Copy(fileName: string)
      modifies this
      ensures files == old(files) + {fileName}
    {
      files := files + {fileName};
    }

    /** Files.deleteIfExists. */
    method DeleteIfExists(fileName: string)
      modifies this
      ensures files == old(files) - {fileName}
    {
      files := files - {fileName};
    }
  }

  /** UUID.randomUUID(): each call yields the next entry of a sequence fixed when
      the source is built. */
  class UuidSource {
    const draw: nat -> string
    var drawn: nat

    constructor (draw: nat -> string)
      ensures this.draw == draw && drawn == 0
    {
      this.draw := draw;
      drawn := 0;
    }

    method RandomUuid() returns (uuid: string)
      modifies this
      ensures uuid == draw(old(drawn)) && drawn == old(drawn) + 1
    {
      uuid := draw(drawn);
      drawn := drawn + 1;
    }
  }

  class RentalService {
    const db: Database
    const clock: Clock
    const uuids: UuidSource
    const storage: PictureStore
    /** getImageUrl: the public URL under which a stored file is served. */
    const imageUrl: string -> string
    /** The name of the stored file an image URL designates (the last segment of
        its path). */
    const fileNameOf: string -> string

    constructor (db: Database, clock: Clock, uuids: UuidSource, storage: PictureStore,
                 imageUrl: string -> string, fileNameOf: string -> string)
      ensures this.db == db && this.clock == clock && this.uuids == uuids && this.storage == storage
      ensures this.imageUrl == imageUrl && this.fileNameOf == fileNameOf
    {
      this.db, this.clock, this.uuids, this.storage := db, clock, uuids, storage;
      this.imageUrl, this.fileNameOf := imageUrl, fileNameOf;
    }

    /** The upload directory after removeOldFileIfNeeded(picture): unchanged for a
        missing URL, otherwise without the file the URL designates. */
    ghost function WithoutOldFile(files: set<string>, picture: Option<string>): set<string> {
      if picture.None? then files else files - {fileNameOf(picture.value)}
    }

    /** saveFile: a refused upload throws before anything is drawn or written;
        an accepted one is copied under a fresh name, which is returned. */
    method SaveFile(file: Upload) returns (r: Saved)
      modifies uuids, storage
      ensures CheckUpload(file).Some? ==> r == Refused(CheckUpload(file).value) && unchanged(uuids) && unchanged(storage)
      ensures CheckUpload(file).None? ==>
        && r == Stored(StoredFileName(uuids.draw(old(uuids.drawn)), file.originalFilename.value))
        && uuids.drawn == old(uuids.drawn) + 1
        && storage.files == old(storage.files) + {r.fileName}
    {
      var refusal := CheckUpload(file);
      if refusal.Some? {
        return Refused(refusal.value);
      }
      var uuid := uuids.RandomUuid();
      var fileName := StoredFileName(uuid, file.originalFilename.value);
      storage.Copy(fileName);
      r := Stored(fileName);
    }

    /** removeOldFileIfNeeded: nothing for a missing URL, otherwise the designated
        file is deleted if it exists. */
    method RemoveOldFileIfNeeded(oldImageUrl: Option<string>)
      modifies storage
      ensures storage.files == WithoutOldFile(old(storage.files), oldImageUrl)
    {
      if oldImageUrl.None? {
        return;
      }
      storage.DeleteIfExists(fileNameOf(oldImageUrl.value));
    }

    /** The end of createRental once the picture is stored: the mapped row with
        its owner and picture URL, one clock reading for both timestamps, then the
        insert. */
    method StampAndInsert(dto: NewRentalDto, owner: UserEntity, picture: string)
      requires db.Valid() && owner in db.users
      modifies db, clock
      ensures db.Valid()
      ensures db.users == old(db.users) && db.tokens == old(db.tokens) && db.messages == old(db.messages)
      ensures clock.ticks == old(clock.ticks) + 1
      ensures db.rentals == old(db.rentals) + [CreatedRental(dto, owner, picture, |old(db.rentals)| + 1,
                                                             clock.reading(old(clock.ticks)))]
    {
      var rental := RentalMapper.ToEntity(dto);
      rental := rental.(owner := Some(owner), picture := Some(picture));
      var now := clock.Now();
      rental := rental.(createdAt := Some(now), updatedAt := Some(now));
      var stored := db.SaveRental(rental);
    }

    /** createRental once the owner is known: a refused picture throws before
        anything is written; otherwise the picture is stored and the row inserted. */
    method CreateOwnedRental(owner: UserEntity, dto: NewRentalDto) returns (refusal: Option<Refusal>)
      requires db.Valid() && owner in db.users
      modifies db, clock, uuids, storage
      ensures db.Valid()
      ensures db.users == old(db.users) && db.tokens == old(db.tokens) && db.messages == old(db.messages)
      ensures refusal == CheckUpload(dto.picture)
      ensures refusal.Some? ==>
        && db.rentals == old(db.rentals) && unchanged(storage) && unchanged(uuids)
        && clock.ticks == old(clock.ticks)
      ensures refusal.None? ==>
        var fileName := StoredFileName(uuids.draw(old(uuids.drawn)), dto.picture.originalFilename.value);
        && storage.files == old(storage.files) + {fileName}
        && clock.ticks == old(clock.ticks) + 1
        && db.rentals == old(db.rentals) + [CreatedRental(dto, owner, imageUrl(fileName), |old(db.rentals)| + 1,
                                                          clock.reading(old(clock.ticks)))]
    {
      var saved := SaveFile(dto.picture);
      if saved.Refused? {
        return Some(saved.reason);
      }
      StampAndInsert(dto, owner, imageUrl(saved.fileName));
      refusal := None;
    }

    /** createRental for the authenticated user `principal`. An unknown principal
        and a refused picture both throw before anything is written; otherwise the
        picture is stored and the new row appended. */
    method CreateRental(principal: string, dto: NewRentalDto) returns (error: Option<RentalError>)
      requires db.Valid()
      modifies db, clock, uuids, storage
      ensures db.Valid()
      ensures db.users == old(db.users) && db.tokens == old(db.tokens) && db.messages == old(db.messages)
      ensures error.None? <==> FindUserByEmail(old(db.users), principal).Some? && CheckUpload(dto.picture).None?
      ensures FindUserByEmail(old(db.users), principal).None? ==>
        error == Some(OwnerUnknown)
      ensures FindUserByEmail(old(db.users), principal).Some? && CheckUpload(dto.picture).Some? ==>
        error == Some(UploadRefused(CheckUpload(dto.picture).value))
      ensures error.Some? ==>
        && db.rentals == old(db.rentals) && unchanged(storage) && unchanged(uuids)
        && clock.ticks == old(clock.ticks)
      ensures error.None? ==>
        var fileName := StoredFileName(uuids.draw(old(uuids.drawn)), dto.picture.originalFilename.value);
        && storage.files == old(storage.files) + {fileName}
        && clock.ticks == old(clock.ticks) + 1
        && db.rentals == old(db.rentals) + [CreatedRental(dto, FindUserByEmail(old(db.users), principal).value,
                                                          imageUrl(fileName), |old(db.rentals)| + 1,
                                                          clock.reading(old(clock.ticks)))]
    {
      var owner := FindUserByEmail(db.users, principal);
      if owner.None? {
        return Some(OwnerUnknown);
      }
      var refusal := CreateOwnedRental(owner.value, dto);
      error := if refusal.Some? then Some(UploadRefused(refusal.value)) else None;
    }

    /** The picture URL an accepted update stores: a new URL when the request
        carries a non-empty upload, otherwise None (the row keeps its own). */
    function PictureAfter(dto: UpdateRentalDto, uuid: string): Option<string> {
      if ReplacesPicture(dto) && dto.picture.value.originalFilename.Some? then
        Some(imageUrl(StoredFileName(uuid, dto.picture.value.originalFilename.value)))
      else None
    }

    /** The setters of updateRental and its clock reading. */
    method Touch(row: RentalEntity, dto: UpdateRentalDto) returns (updated: RentalEntity)
      modifies clock
      ensures clock.ticks == old(clock.ticks) + 1
      ensures updated == UpdatedRental(row, dto, clock.reading(old(clock.ticks)), None)
    {
      updated := row.(name := dto.name);
      updated := updated.(surface := dto.surface);
      updated := updated.(price := dto.price);
      updated := updated.(description := dto.description);
      var now := clock.Now();
      updated := updated.(updatedAt := Some(now));
    }

    /** Picture replacement with the upload validated before the old file is
        removed: a refused upload leaves the directory as it was. */
    method ReplacePicture(row: RentalEntity, file: Upload) returns (refusal: Option<Refusal>, updated: RentalEntity)
      modifies uuids, storage
      ensures refusal == CheckUpload(file)
      ensures refusal.Some? ==> unchanged(uuids) && unchanged(storage)
      ensures refusal.None? ==>
        var fileName := StoredFileName(uuids.draw(old(uuids.drawn)), file.originalFilename.value);
        && storage.files == WithoutOldFile(old(storage.files), row.picture) + {fileName}
        && updated == row.(picture := Some(imageUrl(fileName)))
    {
      updated := row;
      refusal := CheckUpload(file);
      if refusal.Some? {
        return;
      }
      RemoveOldFileIfNeeded(row.picture);
      var saved := SaveFile(file);
      updated := row.(picture := Some(imageUrl(saved.fileName)));
    }

    /** Picture replacement in the order of updateRental as written: the old
        file is removed first, then the upload is validated and stored. */
    method ReplacePictureAsWritten(row: RentalEntity, file: Upload) returns (refusal: Option<Refusal>, updated: RentalEntity)
      modifies uuids, storage
      ensures refusal == CheckUpload(file)
      ensures refusal.Some? ==> unchanged(uuids) && storage.files == WithoutOldFile(old(storage.files), row.picture)
      ensures refusal.None? ==>
        var fileName := StoredFileName(uuids.draw(old(uuids.drawn)), file.originalFilename.value);
        && storage.files == WithoutOldFile(old(storage.files), row.picture) + {fileName}
        && updated == row.(picture := Some(imageUrl(fileName)))
    {
      updated := row;
      RemoveOldFileIfNeeded(row.picture);
      var saved := SaveFile(file);
      if saved.Refused? {
        return Some(saved.reason), row;
      }
      refusal := None;
      updated := row.(picture := Some(imageUrl(saved.fileName)));
    }

    /** The setters and, when the request carries a non-empty upload, the
        validated picture replacement. */
    method ApplyUpdate(row: RentalEntity, dto: UpdateRentalDto) returns (refusal: Option<Refusal>, updated: RentalEntity)
      modifies clock, uuids, storage
      ensures clock.ticks == old(clock.ticks) + 1
      ensures refusal == (if ReplacesPicture(dto) then CheckUpload(dto.picture.value) else None)
      ensures refusal.Some? || !ReplacesPicture(dto) ==> unchanged(uuids) && unchanged(storage)
      ensures refusal.None? ==>
        updated == UpdatedRental(row, dto, clock.reading(old(clock.ticks)), PictureAfter(dto, uuids.draw(old(uuids.drawn))))
      ensures refusal.None? && ReplacesPicture(dto) ==>
        storage.files == WithoutOldFile(old(storage.files), row.picture)
                         + {StoredFileName(uuids.draw(old(uuids.drawn)), dto.picture.value.originalFilename.value)}
    {
      updated := Touch(row, dto);
      refusal := None;
      if ReplacesPicture(dto) {
        refusal, updated := ReplacePicture(updated, dto.picture.value);
      }
    }

    /** The same in the order of updateRental as written. */
    method ApplyUpdateAsWritten(row: RentalEntity, dto: UpdateRentalDto) returns (refusal: Option<Refusal>, updated: RentalEntity)
      modifies clock, uuids, storage
      ensures clock.ticks == old(clock.ticks) + 1
      ensures refusal == (if ReplacesPicture(dto) then CheckUpload(dto.picture.value) else None)
      ensures !ReplacesPicture(dto) ==> unchanged(uuids) && unchanged(storage)
      ensures refusal.Some? ==> unchanged(uuids) && storage.files == WithoutOldFile(old(storage.files), row.picture)
      ensures refusal.None? ==>
        updated == UpdatedRental(row, dto, clock.reading(old(clock.ticks)), PictureAfter(dto, uuids.draw(old(uuids.drawn))))
      ensures refusal.None? && ReplacesPicture(dto) ==>
        storage.files == WithoutOldFile(old(storage.files), row.picture)
                         + {StoredFileName(uuids.draw(old(uuids.drawn)), dto.picture.value.originalFilename.value)}
    {
      updated := Touch(row, dto);
      refusal := None;
      if ReplacesPicture(dto) {
        refusal, updated := ReplacePictureAsWritten(updated, dto.picture.value);
      }
    }

    /** The overwrite of a found row. */
    method Overwrite(updated: RentalEntity)
      requires db.Valid()
      requires updated.id.Some? && 1 <= updated.id.value <= |db.rentals|
      requires updated.picture.Some? && updated.owner.Some? && updated.owner.value in db.users
      requires updated.createdAt.Some? && updated.updatedAt.Some?
      modifies db
      ensures db.Valid()
      ensures db.users == old(db.users) && db.tokens == old(db.tokens) && db.messages == old(db.messages)
      ensures db.rentals == old(db.rentals)[updated.id.value - 1 := updated]
    {
      var saved := db.SaveRental(updated);
    }

    /** updateRental once the row is found: the validated update, then the
        overwrite; a refused upload throws before the row or the directory is
        touched. */
    method UpdateFound(row: RentalEntity, dto: UpdateRentalDto) returns (refusal: Option<Refusal>)
      requires db.Valid()
      requires row.id.Some? && 1 <= row.id.value <= |db.rentals| && row == db.rentals[row.id.value - 1]
      modifies db, clock, uuids, storage
      ensures db.Valid()
      ensures db.users == old(db.users) && db.tokens == old(db.tokens) && db.messages == old(db.messages)
      ensures clock.ticks == old(clock.ticks) + 1
      ensures refusal == (if ReplacesPicture(dto) then CheckUpload(dto.picture.value) else None)
      ensures refusal.Some? ==> db.rentals == old(db.rentals) && unchanged(uuids) && unchanged(storage)
      ensures refusal.None? ==>
        db.rentals == old(db.rentals)[row.id.value - 1 := UpdatedRental(row, dto, clock.reading(old(clock.ticks)),
                                                                          PictureAfter(dto, uuids.draw(old(uuids.drawn))))]
      ensures refusal.None? && ReplacesPicture(dto) ==>
        storage.files == WithoutOldFile(old(storage.files), row.picture)
                         + {StoredFileName(uuids.draw(old(uuids.drawn)), dto.picture.value.originalFilename.value)}
      ensures !ReplacesPicture(dto) ==> unchanged(uuids) && unchanged(storage)
    {
      var updated;
      refusal, updated := ApplyUpdate(row, dto);
      if refusal.None? {
        Overwrite(updated);
      }
    }

    /** The same in the order of updateRental as written: a refused upload
        throws after the old picture file was removed. */
    method UpdateFoundAsWritten(row: RentalEntity, dto: UpdateRentalDto) returns (refusal: Option<Refusal>)
      requires db.Valid()
      requires row.id.Some? && 1 <= row.id.value <= |db.rentals| && row == db.rentals[row.id.value - 1]
      modifies db, clock, uuids, storage
      ensures db.Valid()
      ensures db.users == old(db.users) && db.tokens == old(db.tokens) && db.messages == old(db.messages)
      ensures clock.ticks == old(clock.ticks) + 1
      ensures refusal == (if ReplacesPicture(dto) then CheckUpload(dto.picture.value) else None)
      ensures refusal.Some? ==>
        db.rentals == old(db.rentals) && unchanged(uuids) && storage.files == WithoutOldFile(old(storage.files), row.picture)
      ensures refusal.None? ==>
        db.rentals == old(db.rentals)[row.id.value - 1 := UpdatedRental(row, dto, clock.reading(old(clock.ticks)),
                                                                          PictureAfter(dto, uuids.draw(old(uuids.drawn))))]
      ensures refusal.None? && ReplacesPicture(dto) ==>
        storage.files == WithoutOldFile(old(storage.files), row.picture)
                         + {StoredFileName(uuids.draw(old(uuids.drawn)), dto.picture.value.originalFilename.value)}
      ensures !ReplacesPicture(dto) ==> unchanged(uuids) && unchanged(storage)
    {
      var updated;
      refusal, updated := ApplyUpdateAsWritten(row, dto);
      if refusal.None? {
        Overwrite(updated);
      }
    }

    /** updateRental(id, dto), with the upload validated before the old picture
        file is removed. An unknown id and a refused upload both throw, and a
        request that throws leaves the rentals table and the upload directory as
        they were. An accepted update overwrites the row in place. */
    method UpdateRental(id: int, dto: UpdateRentalDto) returns (error: Option<RentalError>)
      requires db.Valid()
      modifies db, clock, uuids, storage
      ensures db.Valid()
      ensures db.users == old(db.users) && db.tokens == old(db.tokens) && db.messages == old(db.messages)
      ensures FindRentalById(old(db.rentals), id).None? ==>
        && error == Some(RentalMissing)
        && unchanged(uuids) && clock.ticks == old(clock.ticks)
      ensures error.None? <==>
        FindRentalById(old(db.rentals), id).Some? && (ReplacesPicture(dto) ==> CheckUpload(dto.picture.value).None?)
      ensures FindRentalById(old(db.rentals), id).Some? && ReplacesPicture(dto) && CheckUpload(dto.picture.value).Some? ==>
        error == Some(UploadRefused(CheckUpload(dto.picture.value).value))
      ensures error.Some? ==> db.rentals == old(db.rentals) && storage.files == old(storage.files)
      ensures error.None? ==>
        && 1 <= id <= |old(db.rentals)|
        && db.rentals == old(db.rentals)[id - 1 := UpdatedRental(old(db.rentals)[id - 1], dto, clock.reading(old(clock.ticks)),
                                                                   PictureAfter(dto, uuids.draw(old(uuids.drawn))))]
        && storage.files == if ReplacesPicture(dto) then
             WithoutOldFile(old(storage.files), old(db.rentals)[id - 1].picture)
             + {StoredFileName(uuids.draw(old(uuids.drawn)), dto.picture.value.originalFilename.value)}
           else old(storage.files)
    {
      var found := FindRentalById(db.rentals, id);
      if found.None? {
        return Some(RentalMissing);
      }
      FindRentalByIdPosition(db.rentals, db.users, id);
      var refusal := UpdateFound(found.value, dto);
      error := if refusal.Some? then Some(UploadRefused(refusal.value)) else None;
    }

    /** updateRental(id, dto) in the order the source has: the old picture file
        is removed before the upload is validated, so a refused upload throws
        with the row unchanged but its picture file gone. */
    method UpdateRentalAsWritten(id: int, dto: UpdateRentalDto) returns (error: Option<RentalError>)
      requires db.Valid()
      modifies db, clock, uuids, storage
      ensures db.Valid()
      ensures db.users == old(db.users) && db.tokens == old(db.tokens) && db.messages == old(db.messages)
      ensures FindRentalById(old(db.rentals), id).None? ==>
        && error == Some(RentalMissing)
        && unchanged(uuids) && unchanged(storage) && clock.ticks == old(clock.ticks)
      ensures error.None? <==>
        FindRentalById(old(db.rentals), id).Some? && (ReplacesPicture(dto) ==> CheckUpload(dto.picture.value).None?)
      ensures FindRentalById(old(db.rentals), id).Some? && ReplacesPicture(dto) && CheckUpload(dto.picture.value).Some? ==>
        && 1 <= id <= |old(db.rentals)|
        && error == Some(UploadRefused(CheckUpload(dto.picture.value).value))
        && db.rentals == old(db.rentals)
        && storage.files == WithoutOldFile(old(storage.files), old(db.rentals)[id - 1].picture)
      ensures error.None? ==>
        && 1 <= id <= |old(db.rentals)|
        && db.rentals == old(db.rentals)[id - 1 := UpdatedRental(old(db.rentals)[id - 1], dto, clock.reading(old(clock.ticks)),
                                                                   PictureAfter(dto, uuids.draw(old(uuids.drawn))))]
        && storage.files == if ReplacesPicture(dto) then
             WithoutOldFile(old(storage.files), old(db.rentals)[id - 1].picture)
             + {StoredFileName(uuids.draw(old(uuids.drawn)), dto.picture.value.originalFilename.value)}
           else old(storage.files)
    {
      var found := FindRentalById(db.rentals, id);
      if found.None? {
        return Some(RentalMissing);
      }
      FindRentalByIdPosition(db.rentals, db.users, id);
      var refusal := UpdateFoundAsWritten(found.value, dto);
      error := if refusal.Some? then Some(UploadRefused(refusal.value)) else None;
    }

    /** As written: an update of an existing rental whose upload is refused (one
        declared as text/plain, say) throws, the row still shows its old picture
        URL, and the file that URL designates is no longer in the directory. */
    method RefusedUploadOrphansPicture(id: int, dto: UpdateRentalDto) returns (error: Option<RentalError>)
      requires db.Valid() && 1 <= id <= |db.rentals|
      requires ReplacesPicture(dto) && CheckUpload(dto.picture.value).Some?
      modifies db, clock, uuids, storage
      ensures error.Some?
      ensures db.rentals == old(db.rentals) && db.rentals[id - 1].picture.Some?
      ensures fileNameOf(db.rentals[id - 1].picture.value) !in storage.files
    {
      FindRentalByIdPosition(db.rentals, db.users, id);
      error := UpdateRentalAsWritten(id, dto);
    }

    /** Corrected: the same request throws and leaves both the row and its
        picture file in place. */
    method RefusedUploadKeepsPicture(id: int, dto: UpdateRentalDto) returns (error: Option<RentalError>)
      requires db.Valid() && 1 <= id <= |db.rentals|
      requires ReplacesPicture(dto) && CheckUpload(dto.picture.value).Some?
      requires db.rentals[id - 1].picture.Some? && fileNameOf(db.rentals[id - 1].picture.value) in storage.files
      modifies db, clock, uuids, storage
      ensures error.Some?
      ensures db.rentals == old(db.rentals)
      ensures fileNameOf(db.rentals[id - 1].picture.value) in storage.files
    {
      FindRentalByIdPosition(db.rentals, db.users, id);
      error := UpdateRental(id, dto);
    }
  }
}
