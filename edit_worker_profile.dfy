/** Editing a worker profile (src/pages/EditWorkerProfile.jsx): skills are
    edited as one comma-separated text and stored as a list, and portfolio
    photos are added and removed before the profile is saved. */
module EditWorkerProfile {
  import opened Wrappers
  import opened Strings
  import Seqs

  /** `.map(skill => skill.trim())`. */
  function TrimAll(parts: seq<string>): (r: seq<string>)
    ensures |r| == |parts| && forall k :: 0 <= k < |parts| ==> r[k] == Trim(parts[k])
  {
    seq(|parts|, k requires 0 <= k < |parts| => Trim(parts[k]))
  }

  function NonEmpty(): string -> bool {
    (skill: string) => |skill| > 0
  }

  /** The skills list saved from the text: split on `,`, each piece trimmed,
      empty pieces dropped. */
  function ParseSkills(text: string): seq<string> {
    Seqs.Filter(TrimAll(Split(text, ',')), NonEmpty())
  }

  /** Every parsed skill is non-empty, trimmed and free of commas, and an
      empty text gives no skills. */
  lemma ParseSkillsShape(text: string)
    ensures forall k :: 0 <= k < |ParseSkills(text)| ==>
              |ParseSkills(text)[k]| > 0 && IsTrimmed(ParseSkills(text)[k]) && ',' !in ParseSkills(text)[k]
    ensures ParseSkills("") == []
  {
    var pieces := Split(text, ',');
    var trimmed := TrimAll(pieces);
    forall k | 0 <= k < |trimmed| ensures IsTrimmed(trimmed[k]) && ',' !in trimmed[k] {
      TrimIsInnerSlice(pieces[k]);
      var i, j :| 0 <= i <= j <= |pieces[k]| && Trim(pieces[k]) == pieces[k][i..j];
      assert forall c :: c in trimmed[k] ==> c in pieces[k];
    }
    assert Split("", ',') == [""];
    assert Trim("") == "";
    assert TrimAll([""]) == [""];
    assert Seqs.Filter([""][1..], NonEmpty()) == [];
  }

  /** `profile.skills.join(', ')`, the text a stored list loads as. */
  function JoinSkills(skills: seq<string>): string {
    Join(skills, ", ")
  }

  /** Each piece with a space in front. */
  function Spaced(parts: seq<string>): (r: seq<string>)
    ensures |r| == |parts| && forall k :: 0 <= k < |parts| ==> r[k] == " " + parts[k]
  {
    seq(|parts|, k requires 0 <= k < |parts| => " " + parts[k])
  }

  /** Joining with `, ` is joining with `,` after a space is put in front of
      each piece. */
  lemma {:induction false} SpacedJoin(parts: seq<string>)
    requires |parts| >= 1
    ensures " " + Join(parts, ", ") == Join(Spaced(parts), ",")
    decreases |parts|
  {
    if |parts| > 1 {
      SpacedJoin(parts[1..]);
      assert Spaced(parts)[1..] == Spaced(parts[1..]);
    }
  }

  /** The pieces `,` splits a joined list into: the first skill, then each
      further skill with the space of its separator in front. */
  function Pieces(skills: seq<string>): (r: seq<string>)
    requires |skills| >= 1
    ensures |r| == |skills| && r[0] == skills[0]
    ensures forall k :: 1 <= k < |skills| ==> r[k] == " " + skills[k]
  {
    [skills[0]] + Spaced(skills[1..])
  }

  /** The loaded text is the pieces joined with `,`. */
  lemma JoinedIsPieces(skills: seq<string>)
    requires |skills| >= 1
    ensures JoinSkills(skills) == Join(Pieces(skills), ",")
  {
    if |skills| > 1 {
      SpacedJoin(skills[1..]);
      assert Pieces(skills)[1..] == Spaced(skills[1..]);
    } else {
      assert Pieces(skills) == [skills[0]];
    }
  }

  /** A trimmed skill with a space in front trims back to itself. */
  lemma TrimSpaced(skill: string)
    requires IsTrimmed(skill)
    ensures Trim(" " + skill) == skill
  {
    assert AllWhitespace(" ");
    TrimLeadingWhitespace(" ", skill);
    TrimOfTrimmed(skill);
  }

  /** No piece holds a comma when no skill does. */
  lemma PiecesCommaFree(skills: seq<string>)
    requires |skills| >= 1
    requires forall k :: 0 <= k < |skills| ==> ',' !in skills[k]
    ensures forall k :: 0 <= k < |skills| ==> ',' !in Pieces(skills)[k]
  {
    var pieces := Pieces(skills);
    forall k | 1 <= k < |skills| ensures ',' !in pieces[k] {
      assert pieces[k] == " " + skills[k];
    }
  }

  /** Trimming the pieces gives back the skills. */
  lemma TrimmedPieces(skills: seq<string>)
    requires |skills| >= 1
    requires forall k :: 0 <= k < |skills| ==> IsTrimmed(skills[k])
    ensures TrimAll(Pieces(skills)) == skills
  {
    var pieces := Pieces(skills);
    var trimmed := TrimAll(pieces);
    forall k | 0 <= k < |skills| ensures trimmed[k] == skills[k] {
      if k == 0 {
        TrimOfTrimmed(skills[0]);
      } else {
        TrimSpaced(skills[k]);
      }
    }
  }

  /** The parse of a joined non-empty list, stage by stage: the split gives
      the pieces, trimming gives the skills, and no skill is dropped. */
  lemma ParseJoinedStages(skills: seq<string>)
    requires |skills| >= 1
    requires forall k :: 0 <= k < |skills| ==> |skills[k]| > 0 && IsTrimmed(skills[k]) && ',' !in skills[k]
    ensures Split(JoinSkills(skills), ',') == Pieces(skills)
    ensures TrimAll(Pieces(skills)) == skills
    ensures Seqs.Filter(skills, NonEmpty()) == skills
  {
    JoinedIsPieces(skills);
    PiecesCommaFree(skills);
    SplitJoin(Pieces(skills), ',');
    TrimmedPieces(skills);
    Seqs.FilterAll(skills, NonEmpty());
  }

  /** Loading and saving give back the stored list when every skill is
      trimmed, non-empty and free of commas. */
  lemma ParseJoinedSkills(skills: seq<string>)
    requires forall k :: 0 <= k < |skills| ==> |skills[k]| > 0 && IsTrimmed(skills[k]) && ',' !in skills[k]
    ensures ParseSkills(JoinSkills(skills)) == skills
  {
    if |skills| == 0 {
      ParseSkillsShape("");
    } else {
      ParseJoinedStages(skills);
    }
  }

  /** The columns of the signed-in user's profile the form loads. */
  datatype StoredProfile = StoredProfile(job_title: Option<string>, hourly_rate: Option<int>,
                                         skills: Option<seq<string>>, location: Option<string>,
                                         category: Option<string>, bio: Option<string>,
                                         portfolio_photos: Option<seq<string>>)

  /** `formData`. The rate is held as the text of the input. */
  datatype WorkerForm = WorkerForm(job_title: string, hourly_rate: string, skills: string, location: string,
                                   category: string, bio: string, portfolio_photos: seq<string>)

  /** The form a profile loads into: missing texts become `''`, missing
      photos `[]`, a zero or missing rate `''`. A list of skills, empty or
      not, loads joined. */
  function LoadForm(p: StoredProfile): (f: WorkerForm)
    ensures p.job_title.None? ==> f.job_title == ""
    ensures p.location.None? ==> f.location == ""
    ensures p.category.None? ==> f.category == ""
    ensures p.bio.None? ==> f.bio == ""
    ensures p.skills.None? ==> f.skills == ""
    ensures p.skills.Some? ==> f.skills == JoinSkills(p.skills.value)
    ensures p.portfolio_photos.None? ==> f.portfolio_photos == []
    ensures p.portfolio_photos.Some? ==> f.portfolio_photos == p.portfolio_photos.value
    ensures (p.hourly_rate.None? || p.hourly_rate == Some(0)) <==> f.hourly_rate == ""
  {
    WorkerForm(p.job_title.GetOr(""),
               if p.hourly_rate.Some? && p.hourly_rate.value != 0 then IntToText(p.hourly_rate.value) else "",
               if p.skills.Some? then JoinSkills(p.skills.value) else "",
               p.location.GetOr(""), p.category.GetOr(""), p.bio.GetOr(""),
               p.portfolio_photos.GetOr([]))
  }

  /** The `users` update the save sends. */
  datatype Updates = Updates(job_title: string, hourly_rate: Option<string>, skills: seq<string>,
                             location: string, category: string, bio: string, portfolio_photos: seq<string>,
                             updated_at: int)

  /** The update built from the form: the skills text parsed, an empty rate
      sent as null, the other fields as they are. */
  function UpdatesOf(f: WorkerForm, now: int): (u: Updates)
    ensures u.skills == ParseSkills(f.skills) && u.portfolio_photos == f.portfolio_photos
    ensures u.hourly_rate.None? <==> f.hourly_rate == ""
  {
    Updates(f.job_title, if f.hourly_rate != "" then Some(f.hourly_rate) else None,
            ParseSkills(f.skills), f.location, f.category, f.bio, f.portfolio_photos, now)
  }

  /** The URLs an upload adds: the non-null results, in order. */
  function Uploaded(urls: seq<Option<string>>): (r: seq<string>)
    ensures |r| <= |urls|
    ensures forall k :: 0 <= k < |r| ==> Some(r[k]) in urls
    decreases |urls|
  {
    if urls == [] then []
    else (if urls[0].Some? then [urls[0].value] else []) + Uploaded(urls[1..])
  }

  /** Every non-null URL is kept, in order (as the filter over nulls). */
  lemma {:induction false} UploadedKeepsAll(urls: seq<Option<string>>)
    ensures forall k :: 0 <= k < |urls| && urls[k].Some? ==> urls[k].value in Uploaded(urls)
    ensures (forall k :: 0 <= k < |urls| ==> urls[k].Some?) ==> |Uploaded(urls)| == |urls|
    decreases |urls|
  {
    if urls != [] {
      UploadedKeepsAll(urls[1..]);
      assert forall k :: 0 < k < |urls| ==> urls[k] == urls[1..][k - 1];
    }
  }

  /** The filter works piece by piece, in order: the URLs of a concatenation
      are those of its first part followed by those of its second, a returned
      URL is kept and a null is dropped. */
  lemma {:induction false} UploadedInOrder(a: seq<Option<string>>, b: seq<Option<string>>, x: string)
    ensures Uploaded(a + b) == Uploaded(a) + Uploaded(b)
    ensures Uploaded([Some(x)]) == [x]
    ensures Uploaded([None]) == []
    decreases |a|
  {
    if a != [] {
      UploadedInOrder(a[1..], b, x);
      assert (a + b)[1..] == a[1..] + b;
    } else {
      assert a + b == b;
    }
    var one: seq<Option<string>> := [Some(x)];
    var none: seq<Option<string>> := [None];
    assert one[1..] == [] && none[1..] == [];
  }

  /** With no null among them, the upload keeps the URLs one for one. */
  lemma {:induction false} UploadedAllReturned(urls: seq<Option<string>>)
    requires forall k :: 0 <= k < |urls| ==> urls[k].Some?
    ensures Uploaded(urls) == seq(|urls|, k requires 0 <= k < |urls| => urls[k].value)
    decreases |urls|
  {
    if urls != [] {
      UploadedAllReturned(urls[1..]);
    }
  }

  /** The page's state with the writes it makes. */
  class WorkerProfileEditor {
    var formData: WorkerForm
    var deletedPhotos: seq<Option<string>>
    var uploading: bool
    var loading: bool
    /** The update sent to the `users` row, once saved. */
    var saved: Option<Updates>
    /** The arguments `deleteImage` was called with, in order. */
    var deleteCalls: seq<Option<string>>

    constructor (p: Option<StoredProfile>)
      ensures formData == (if p.Some? then LoadForm(p.value) else WorkerForm("", "", "", "", "", "", []))
      ensures deletedPhotos == [] && !uploading && !loading && saved.None? && deleteCalls == []
    {
      formData := if p.Some? then LoadForm(p.value) else WorkerForm("", "", "", "", "", "", []);
      deletedPhotos := [];
      uploading := false;
      loading := false;
      saved := None;
      deleteCalls := [];
    }

    /** `handlePhotoUpload` with the upload results (`uploadFails` when one
        throws): no files is a no-op, and the non-null URLs are appended
        after the existing photos. */
    method HandlePhotoUpload(files: nat, urls: seq<Option<string>>, uploadFails: bool)
      modifies this
      ensures !uploading || (files == 0 && uploading == old(uploading))
      ensures deletedPhotos == old(deletedPhotos) && loading == old(loading)
      ensures saved == old(saved) && deleteCalls == old(deleteCalls)
      ensures formData == (if files == 0 || uploadFails then old(formData)
                           else old(formData).(portfolio_photos := old(formData).portfolio_photos + Uploaded(urls)))
    {
      if files == 0 {
        return;
      }
      uploading := true;
      if !uploadFails {
        formData := formData.(portfolio_photos := formData.portfolio_photos + Uploaded(urls));
      }
      uploading := false;
    }

    /** `removePhoto(i)`: the photo at `i` goes to `deletedPhotos` (undefined,
        here `None`, when there is none) and exactly index `i` leaves the
        list. */
    method RemovePhoto(i: int)
      modifies this
      ensures deletedPhotos == old(deletedPhotos) +
                [if 0 <= i < |old(formData).portfolio_photos| then Some(old(formData).portfolio_photos[i]) else None]
      ensures formData == old(formData).(portfolio_photos := Seqs.RemoveAt(old(formData).portfolio_photos, i))
      ensures uploading == old(uploading) && loading == old(loading) && saved == old(saved)
      ensures deleteCalls == old(deleteCalls)
    {
      var photoToRemove := if 0 <= i < |formData.portfolio_photos| then Some(formData.portfolio_photos[i]) else None;
      deletedPhotos := deletedPhotos + [photoToRemove];
      formData := formData.(portfolio_photos := Seqs.RemoveAt(formData.portfolio_photos, i));
    }

    /** `handleSubmit()`. The removed photos are deleted first, then the
        profile row is updated with the parsed skills; without a signed-in
        user the update throws. */
    method HandleSubmit(user: Option<string>, updateFails: bool, now: int) returns (ok: bool)
      modifies this
      ensures !loading && formData == old(formData) && deletedPhotos == old(deletedPhotos)
      ensures uploading == old(uploading)
      ensures deleteCalls == old(deleteCalls) + old(deletedPhotos)
      ensures ok <==> user.Some? && !updateFails
      ensures saved == (if ok then Some(UpdatesOf(old(formData), now)) else old(saved))
    {
      loading := true;
      deleteCalls := deleteCalls + deletedPhotos;
      ok := user.Some? && !updateFails;
      if ok {
        saved := Some(UpdatesOf(formData, now));
      }
      loading := false;
    }
  }
}
