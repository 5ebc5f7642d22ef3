/**
 * Player records and their photos (src/lib/supabase/players.ts; createPlayer,
 * updatePlayer and uploadPlayerPhoto are repeated in src/lib/supabase.ts).
 */
module PlayersApi {
  import opened Types
  import opened Strings
  import opened Backend

  // The storage path of a photo.

  const PhotoFolder: string := "player-photos/"

  /** `file.name.split('.').pop()`. */
  function PhotoExtension(fileName: string): string
  {
    LastSegment(fileName, '.')
  }

  /** `${playerId}.${fileExt}`. */
  function PhotoFileName(playerId: string, fileName: string): string
  {
    playerId + "." + PhotoExtension(fileName)
  }

  function PhotoPath(playerId: string, fileName: string): (r: string)
    ensures |r| > |PhotoFolder| && r[..|PhotoFolder|] == PhotoFolder
  {
    PhotoFolder + PhotoFileName(playerId, fileName)
  }

  /**
   * The extension is the text after the last '.': it holds no '.', it ends the
   * name, and it is the whole name exactly when the name has no '.'.
   */
  lemma PhotoExtensionIsAfterLastDot(fileName: string)
    ensures var e := PhotoExtension(fileName);
      && '.' !in e && |e| <= |fileName| && fileName[|fileName| - |e|..] == e
      && (|e| < |fileName| ==> fileName[|fileName| - |e| - 1] == '.')
      && (e == fileName <==> '.' !in fileName)
  {
    LastSegmentIsLongestSuffix(fileName, '.');
    if '.' !in fileName {
      LastSegmentWithoutSep(fileName, '.');
    }
  }

  /** Whatever precedes the last separator, the last piece is what follows it. */
  lemma LastSegmentAfterSep(s: string, e: string, sep: char)
    requires sep !in e
    ensures LastSegment(s + [sep] + e, sep) == e
  {
    var p := s + [sep] + e;
    var e' := LastSegment(p, sep);
    LastSegmentIsLongestSuffix(p, sep);
    assert p[|p| - |e| - 1] == sep;
    assert p[|p| - |e|..] == e;
  }

  /**
   * The path gives back the player id and the extension, so two uploads
   * target the same path exactly when they are for the same player and
   * extension (and then the later one overwrites the earlier one).
   */
  lemma PhotoPathDecodes(playerId: string, fileName: string)
    ensures var p := PhotoPath(playerId, fileName);
      var e := PhotoExtension(fileName);
      && LastSegment(p, '.') == e
      && |p| == |PhotoFolder| + |playerId| + 1 + |e|
      && p[|PhotoFolder|..|p| - |e| - 1] == playerId
  {
    var e := PhotoExtension(fileName);
    PhotoExtensionIsAfterLastDot(fileName);
    assert PhotoPath(playerId, fileName) == (PhotoFolder + playerId) + ['.'] + e;
    LastSegmentAfterSep(PhotoFolder + playerId, e, '.');
  }

  lemma PhotoPathSame(id1: string, name1: string, id2: string, name2: string)
    ensures PhotoPath(id1, name1) == PhotoPath(id2, name2)
            <==> id1 == id2 && PhotoExtension(name1) == PhotoExtension(name2)
  {
    PhotoPathDecodes(id1, name1);
    PhotoPathDecodes(id2, name2);
  }

  // Player rows.

  /** `Partial<Player>`: the fields an update sets; the rest are left as they are. */
  datatype PlayerUpdate = PlayerUpdate(
    name: Option<string>,
    battingHand: Option<Hand>,
    bowlingHand: Option<Hand>,
    bowlingType: Option<BowlingType>,
    photoUrl: Option<Option<string>>)

  function ApplyUpdate(p: Player, u: PlayerUpdate): (r: Player)
    ensures r.id == p.id && r.teams == p.teams
    ensures r.name == (if u.name.Some? then u.name.value else p.name)
    ensures r.battingHand == (if u.battingHand.Some? then u.battingHand.value else p.battingHand)
    ensures r.bowlingHand == (if u.bowlingHand.Some? then u.bowlingHand.value else p.bowlingHand)
    ensures r.bowlingType == (if u.bowlingType.Some? then u.bowlingType.value else p.bowlingType)
    ensures r.photoUrl == (if u.photoUrl.Some? then u.photoUrl.value else p.photoUrl)
  {
    p.(name := if u.name.Some? then u.name.value else p.name,
       battingHand := if u.battingHand.Some? then u.battingHand.value else p.battingHand,
       bowlingHand := if u.bowlingHand.Some? then u.bowlingHand.value else p.bowlingHand,
       bowlingType := if u.bowlingType.Some? then u.bowlingType.value else p.bowlingType,
       photoUrl := if u.photoUrl.Some? then u.photoUrl.value else p.photoUrl)
  }

  /** `{ photoUrl: urlData.publicUrl }`. */
  function PhotoUpdate(url: string): PlayerUpdate
  {
    PlayerUpdate(None, None, None, None, Some(Some(url)))
  }

  /** The photo update sets the photo URL and nothing else. */
  lemma PhotoUpdateOnlyPhoto(p: Player, url: string)
    ensures ApplyUpdate(p, PhotoUpdate(url)) == p.(photoUrl := Some(url))
  {
  }

  /** The `players` table, keyed by id. */
  class PlayerTable {
    var rows: map<string, Player>

    constructor ()
      ensures rows == map[]
    {
      rows := map[];
    }

    /** createPlayer: `newId` is the new row's id, or None when the insert fails. */
    method Create(p: Player, newId: Option<string>) returns (r: Option<Player>)
      requires newId.Some? ==> newId.value !in rows
      modifies this
      ensures newId.None? ==> r.None? && rows == old(rows)
      ensures newId.Some? ==>
        r == Some(p.(id := newId.value)) && rows == old(rows)[newId.value := r.value]
    {
      if newId.None? {
        return None;
      }
      var created := p.(id := newId.value);
      rows := rows[newId.value := created];
      r := Some(created);
    }

    /**
     * updatePlayer: `.update(...).eq('id', id).single()` fails when no row has
     * the id, and whenever the service reports an error (`ok` false); a failure
     * changes nothing and returns null (None).
     */
    method Update(id: string, u: PlayerUpdate, ok: bool) returns (r: Option<Player>)
      modifies this
      ensures ok && id in old(rows) ==>
        r == Some(ApplyUpdate(old(rows)[id], u)) && rows == old(rows)[id := r.value]
      ensures !(ok && id in old(rows)) ==> r.None? && rows == old(rows)
    {
      if !ok || id !in rows {
        return None;
      }
      var updated := ApplyUpdate(rows[id], u);
      rows := rows[id := updated];
      r := Some(updated);
    }
  }

  /**
   * uploadPlayerPhoto: upload (upserting) to the path, then set the photo URL.
   * A failed upload changes nothing and returns null (None); after a successful
   * one the URL is returned even when the row update fails, whose failure
   * updatePlayer swallows. `publicUrl` is what the bucket reports for the path.
   */
  method UploadPlayerPhoto(bucket: Bucket, players: PlayerTable, playerId: string, file: FileInfo,
                           uploadOk: bool, publicUrl: string, updateOk: bool) returns (r: Option<string>)
    modifies bucket, players
    ensures !uploadOk ==> r.None? && bucket.objects == old(bucket.objects) && players.rows == old(players.rows)
    ensures uploadOk ==>
      && r == Some(publicUrl)
      && bucket.objects == old(bucket.objects)[PhotoPath(playerId, file.name) := file]
      && players.rows == if updateOk && playerId in old(players.rows)
                         then old(players.rows)[playerId := old(players.rows)[playerId].(photoUrl := Some(publicUrl))]
                         else old(players.rows)
  {
    if !uploadOk {
      return None;
    }
    var filePath := PhotoPath(playerId, file.name);
    bucket.Upload(filePath, file);
    var _ := players.Update(playerId, PhotoUpdate(publicUrl), updateOk);
    if playerId in old(players.rows) {
      PhotoUpdateOnlyPhoto(old(players.rows)[playerId], publicUrl);
    }
    r := Some(publicUrl);
  }
}
