/**
 * The player form's controller (src/components/player/form/usePlayerForm.ts):
 * the photo chooser's size limit, and the submit that updates the player in
 * edit mode or creates one otherwise, uploading the chosen photo after a
 * successful save.
 */
module PlayerForm {
  import opened Types
  import opened Backend
  import opened PlayersApi
  import opened PlayerSchema

  /** 5 MiB. */
  const MaxPhotoBytes: int := 5 * 1024 * 1024

  /** A chosen file is kept unless it is larger than the limit. */
  predicate PhotoAccepted(file: FileInfo)
  {
    file.size <= MaxPhotoBytes
  }

  /** The limit is inclusive: a file of exactly 5 MiB passes, one more byte does not. */
  lemma PhotoLimit(name: string)
    ensures MaxPhotoBytes == 5242880
    ensures PhotoAccepted(FileInfo(name, 5242880)) && !PhotoAccepted(FileInfo(name, 5242881))
  {
  }

  /** `!!playerId`: an id is given and is not the empty string. */
  predicate IsEditMode(playerId: Option<string>)
  {
    playerId.Some? && playerId.value != ""
  }

  /** The update sent in edit mode: the four form fields, and not the photo. */
  function FormUpdate(f: PlayerFields): (r: PlayerUpdate)
    ensures r.photoUrl.None?
  {
    PlayerUpdate(Some(f.name), Some(f.battingHand), Some(f.bowlingHand), Some(f.bowlingType), None)
  }

  /** The record sent in create mode, with no photo (the id is assigned by the insert). */
  function NewPlayerOf(f: PlayerFields): (r: Player)
    ensures r.photoUrl.None?
  {
    Player("", f.name, f.battingHand, f.bowlingHand, f.bowlingType, None, None)
  }

  /**
   * Saving the form in either mode gives the record the form's four fields;
   * an update keeps the stored id, photo and teams, a creation has no photo.
   */
  lemma SavedFields(p: Player, f: PlayerFields, newId: string)
    ensures var u := ApplyUpdate(p, FormUpdate(f));
      && u == p.(name := f.name, battingHand := f.battingHand, bowlingHand := f.bowlingHand,
                 bowlingType := f.bowlingType)
      && FormValuesOf(PlayerFields(u.name, u.battingHand, u.bowlingHand, u.bowlingType)) == FormValuesOf(f)
    ensures var c := NewPlayerOf(f).(id := newId);
      && c.id == newId && c.photoUrl.None?
      && PlayerFields(c.name, c.battingHand, c.bowlingHand, c.bowlingType) == f
  {
  }

  /** The hook's state. `currentPlayer` is the record loaded for editing, if any. */
  class PlayerFormState {
    const playerId: Option<string>
    var photoFile: Option<FileInfo>
    var photoPreview: Option<string>
    var isSubmitting: bool
    var currentPlayer: Option<Player>

    constructor (playerId: Option<string>, loaded: Option<Player>)
      ensures this.playerId == playerId && currentPlayer == loaded
      ensures photoFile.None? && photoPreview.None? && !isSubmitting
    {
      this.playerId := playerId;
      photoFile, photoPreview, isSubmitting, currentPlayer := None, None, false, loaded;
    }

    /**
     * handlePhotoChange: `previewUrl` stands for the object URL made for the
     * file. No file, or one over the limit, changes nothing; an accepted file
     * sets both the file and its preview.
     */
    method HandlePhotoChange(file: Option<FileInfo>, previewUrl: string)
      modifies this
      ensures file.Some? && PhotoAccepted(file.value) ==>
        photoFile == file && photoPreview == Some(previewUrl)
      ensures file.None? || !PhotoAccepted(file.value) ==>
        photoFile == old(photoFile) && photoPreview == old(photoPreview)
      ensures isSubmitting == old(isSubmitting) && currentPlayer == old(currentPlayer)
    {
      if file.Some? {
        if file.value.size > MaxPhotoBytes {
          return;
        }
        photoFile := file;
        photoPreview := Some(previewUrl);
      }
    }

    /**
     * onSubmit, given validated fields. In edit mode with a loaded player the
     * record of `playerId` is updated (the reply is `updateOk`); otherwise a
     * player is created (the new id is `newId`, None when the insert fails).
     * Only when that returned a record and a photo is chosen is the photo
     * uploaded under the saved record's id (replies `uploadOk`, `publicUrl`,
     * `photoUpdateOk`). The submitting flag ends cleared.
     */
    method OnSubmit(f: PlayerFields, players: PlayerTable, bucket: Bucket,
                    updateOk: bool, newId: Option<string>,
                    uploadOk: bool, publicUrl: string, photoUpdateOk: bool)
      returns (saved: Option<Player>, uploaded: bool)
      requires newId.Some? ==> newId.value !in players.rows
      modifies this, players, bucket
      ensures !isSubmitting
      ensures photoFile == old(photoFile) && photoPreview == old(photoPreview) && currentPlayer == old(currentPlayer)
      ensures var editing := IsEditMode(playerId) && old(currentPlayer).Some?;
        var key := if editing then playerId.value else if newId.Some? then newId.value else "";
        var savedRows := if saved.Some? then old(players.rows)[key := saved.value] else old(players.rows);
        && (editing ==>
              saved == if updateOk && key in old(players.rows)
                       then Some(ApplyUpdate(old(players.rows)[key], FormUpdate(f))) else None)
        && (!editing ==> saved == if newId.Some? then Some(NewPlayerOf(f).(id := key)) else None)
        && (uploaded <==> saved.Some? && photoFile.Some?)
        && (!(uploaded && uploadOk) ==> players.rows == savedRows && bucket.objects == old(bucket.objects))
        && (uploaded && uploadOk ==>
              && bucket.objects == old(bucket.objects)[PhotoPath(key, photoFile.value.name) := photoFile.value]
              && players.rows == if photoUpdateOk
                                 then savedRows[key := savedRows[key].(photoUrl := Some(publicUrl))]
                                 else savedRows)
    {
      isSubmitting := true;
      var key: string;
      if IsEditMode(playerId) && currentPlayer.Some? {
        key := playerId.value;
        saved := players.Update(key, FormUpdate(f), updateOk);
      } else {
        key := if newId.Some? then newId.value else "";
        saved := players.Create(NewPlayerOf(f), newId);
      }
      uploaded := saved.Some? && photoFile.Some?;
      if uploaded {
        var _ := UploadPlayerPhoto(bucket, players, key, photoFile.value, uploadOk, publicUrl, photoUpdateOk);
      }
      isSubmitting := false;
    }
  }
}
