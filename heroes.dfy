/** The heroes page: a roster of heroes with a level, a star count, free
    text tags and notes, which the player adds, edits and deletes through a
    form and narrows down with a search box and a tag filter. */
module Heroes {
  import opened Wrappers
  import opened Strings
  import opened Seqs

  // ---------------------------------------------------------------------
  // Tags
  // ---------------------------------------------------------------------

  /** A tag as the page stores it: not empty, trimmed and lowercase. */
  predicate TagClean(t: string) {
    t != [] && IsTrimmed(t) && IsLowerCase(t)
  }

  /** One piece trimmed and lowercased; nothing when it is blank. */
  function CleanPiece(piece: string): (tags: seq<string>)
    ensures Trim(piece) == [] ==> tags == []
    ensures Trim(piece) != [] ==> tags == [Lower(Trim(piece))]
  {
    var t := Trim(piece);
    if t == [] then [] else [Lower(t)]
  }

  /** Each piece trimmed and lowercased, empty pieces dropped, order kept.
      Both tag pipelines of the page compute this: the one for a comma list
      trims, drops empties and lowercases; the one for a stored array
      trims, lowercases and drops empties, which keeps the same pieces. */
  function CleanTags(pieces: seq<string>): seq<string>
  {
    FlatMap(CleanPiece, pieces)
  }

  lemma CleanTagsCons(pieces: seq<string>)
    requires pieces != []
    ensures CleanTags(pieces) == CleanPiece(pieces[0]) + CleanTags(pieces[1..])
  {
  }

  /** Cleaning a concatenation cleans each part, so tags keep the order of
      the pieces they come from. */
  lemma CleanTagsConcat(a: seq<string>, b: seq<string>)
    ensures CleanTags(a + b) == CleanTags(a) + CleanTags(b)
  {
    FlatMapConcat(CleanPiece, a, b);
  }

  /** `t` is what the piece `p` cleans to. */
  predicate FromPiece(p: string, t: string) {
    Trim(p) != [] && t == Lower(Trim(p))
  }

  lemma CleanPieceMembership(p: string, t: string)
    ensures t in CleanPiece(p) <==> FromPiece(p, t)
  {
  }

  /** A tag comes out exactly when some piece trims to something that
      lowercases to it. */
  lemma CleanTagsMembership(pieces: seq<string>, t: string)
    ensures t in CleanTags(pieces) <==> exists i :: 0 <= i < |pieces| && FromPiece(pieces[i], t)
  {
    FlatMapMembership(CleanPiece, pieces, t);
    forall i | 0 <= i < |pieces|
      ensures t in CleanPiece(pieces[i]) <==> FromPiece(pieces[i], t)
    {
      CleanPieceMembership(pieces[i], t);
    }
  }

  /** Every tag that comes out is clean. */
  lemma CleanTagsAreClean(pieces: seq<string>)
    ensures forall i :: 0 <= i < |CleanTags(pieces)| ==> TagClean(CleanTags(pieces)[i])
  {
    var tags := CleanTags(pieces);
    forall i | 0 <= i < |tags|
      ensures TagClean(tags[i])
    {
      CleanTagsMembership(pieces, tags[i]);
      var k :| 0 <= k < |pieces| && FromPiece(pieces[k], tags[i]);
      LowerIsLowerCase(Trim(pieces[k]));
      LowerKeepsTrimmed(Trim(pieces[k]));
    }
  }

  /** Tags that are already clean are kept as they are. */
  lemma {:induction false} CleanTagsOfClean(tags: seq<string>)
    requires forall i :: 0 <= i < |tags| ==> TagClean(tags[i])
    ensures CleanTags(tags) == tags
    decreases |tags|
  {
    if tags != [] {
      TrimOfTrimmed(tags[0]);
      LowerOfLowerCase(tags[0]);
      CleanTagsOfClean(tags[1..]);
      CleanTagsCons(tags);
    }
  }

  /** normalizeTags: the comma-separated pieces of the input, cleaned; an
      empty input has no tags. */
  function NormalizeTags(input: string): (tags: seq<string>)
    ensures input == [] ==> tags == []
    ensures forall i :: 0 <= i < |tags| ==> TagClean(tags[i]) && ',' !in tags[i]
  {
    if input == [] then []
    else
      var tags := CleanTags(Split(input, ','));
      CleanTagsAreClean(Split(input, ','));
      assert forall i :: 0 <= i < |tags| ==> ',' !in tags[i] by {
        forall i | 0 <= i < |tags|
          ensures ',' !in tags[i]
        {
          NoCommaInCleanTag(Split(input, ','), tags[i]);
        }
      }
      tags
  }

  lemma NoCommaInCleanTag(pieces: seq<string>, t: string)
    requires forall i :: 0 <= i < |pieces| ==> ',' !in pieces[i]
    requires t in CleanTags(pieces)
    ensures ',' !in t
  {
    CleanTagsMembership(pieces, t);
    var i :| 0 <= i < |pieces| && FromPiece(pieces[i], t);
    if ',' in t {
      LowerWithin(Trim(pieces[i]), ',');
      TrimWithin(pieces[i], ',');
      assert false;
    }
  }

  /** The edit dialog shows a hero's tags joined by ", "; saving the dialog
      unchanged gives the same tags back. */
  lemma EditDialogTagsRoundTrip(tags: seq<string>)
    requires forall i :: 0 <= i < |tags| ==> TagClean(tags[i]) && ',' !in tags[i]
    ensures NormalizeTags(Join(tags, ", ")) == tags
  {
    if tags != [] {
      var pieces := DialogPieces(tags);
      var input := Join(tags, ", ");
      JoinWithSpace(tags);
      DialogPiecesNoComma(tags);
      SplitJoin(pieces, ',');
      assert Split(input, ',') == pieces;
      JoinNonEmpty(pieces);
      PiecesClean(tags);
      assert NormalizeTags(input) == CleanTags(pieces);
    }
  }

  lemma DialogPiecesNoComma(tags: seq<string>)
    requires tags != []
    requires forall i :: 0 <= i < |tags| ==> ',' !in tags[i]
    ensures forall i :: 0 <= i < |tags| ==> ',' !in DialogPieces(tags)[i]
  {
    var pieces := DialogPieces(tags);
    forall i | 0 <= i < |pieces|
      ensures ',' !in pieces[i]
    {
      assert i > 0 ==> pieces[i] == " " + tags[i];
    }
  }

  /** Each tag after one space. */
  function Spaced(tags: seq<string>): (r: seq<string>)
    ensures |r| == |tags|
    ensures forall i :: 0 <= i < |tags| ==> r[i] == " " + tags[i]
  {
    seq(|tags|, i requires 0 <= i < |tags| => " " + tags[i])
  }

  /** The pieces a split on ',' finds in `Join(tags, ", ")`: the first tag,
      then each further tag after one space. */
  function DialogPieces(tags: seq<string>): (pieces: seq<string>)
    requires tags != []
    ensures |pieces| == |tags| && pieces[0] == tags[0]
    ensures forall i :: 0 < i < |tags| ==> pieces[i] == " " + tags[i]
  {
    [tags[0]] + Spaced(tags[1..])
  }

  lemma {:induction false} JoinWithSpace(tags: seq<string>)
    requires tags != []
    ensures Join(tags, ", ") == Join(DialogPieces(tags), [','])
    decreases |tags|
  {
    if |tags| > 1 {
      JoinWithSpace(tags[1..]);
      var rest := DialogPieces(tags[1..]);
      var pieces := DialogPieces(tags);
      assert pieces[1..] == [" " + tags[1]] + rest[1..];
      JoinSpaced(tags[1..]);
      var tail := Join(rest, [',']);
      assert Join(pieces[1..], [',']) == " " + tail;
      SpaceAfterComma(tags[0], tail);
    }
  }

  lemma SpaceAfterComma(head: string, tail: string)
    ensures head + [','] + (" " + tail) == head + ", " + tail
  {
    assert [','] + " " == ", ";
  }

  /** Joining pieces whose first one gains a leading space gains that space. */
  lemma JoinSpaced(tags: seq<string>)
    requires tags != []
    ensures Join([" " + tags[0]] + DialogPieces(tags)[1..], [',']) == " " + Join(DialogPieces(tags), [','])
  {
    var ps := DialogPieces(tags);
    var qs := [" " + tags[0]] + ps[1..];
    if |tags| > 1 {
      assert qs[1..] == ps[1..];
    }
  }

  lemma JoinNonEmpty(pieces: seq<string>)
    requires pieces != [] && pieces[0] != []
    ensures Join(pieces, [',']) != []
  {
  }

  lemma CleanPieceOfSpaced(t: string)
    requires TagClean(t)
    ensures CleanPiece(" " + t) == [t]
  {
    assert " " + t == [' '] + t;
    TrimLeadingSpace(' ', t);
    LowerOfLowerCase(t);
  }

  lemma {:induction false} SpacedClean(tags: seq<string>)
    requires forall i :: 0 <= i < |tags| ==> TagClean(tags[i])
    ensures CleanTags(Spaced(tags)) == tags
    decreases |tags|
  {
    if tags != [] {
      var sp := Spaced(tags);
      assert sp[1..] == Spaced(tags[1..]);
      CleanPieceOfSpaced(tags[0]);
      forall i | 0 <= i < |tags| - 1
        ensures TagClean(tags[1..][i])
      {
        assert tags[1..][i] == tags[i + 1];
      }
      SpacedClean(tags[1..]);
      CleanTagsCons(sp);
    }
  }

  lemma PiecesClean(tags: seq<string>)
    requires tags != []
    requires forall i :: 0 <= i < |tags| ==> TagClean(tags[i])
    ensures CleanTags(DialogPieces(tags)) == tags
  {
    var pieces := DialogPieces(tags);
    TrimOfTrimmed(tags[0]);
    LowerOfLowerCase(tags[0]);
    assert pieces[1..] == Spaced(tags[1..]);
    SpacedClean(tags[1..]);
    CleanTagsCons(pieces);
    assert tags == [tags[0]] + tags[1..];
  }

  // ---------------------------------------------------------------------
  // Heroes and their sanitiser (sanitizeHero)
  // ---------------------------------------------------------------------

  datatype Hero = Hero(id: string, name: string, level: int, stars: int, tags: seq<string>, notes: string,
                       updatedAt: string)

  /** The tags of a stored hero: an array of values (each already turned
      into a string), text read as comma-separated tags ("" for a missing or
      falsy value), or any other truthy value (a number, an object, `true`),
      on which normalizeTags calls a `split` that does not exist and throws. */
  datatype RawTags = TagList(items: seq<string>) | TagText(text: string) | TagOther

  /** A hero as stored or as the form hands it over: text fields as
      strings ("" when missing), numbers after `Number(...)` (None when not
      finite). */
  datatype RawHero = RawHero(id: string, name: string, level: Option<real>, stars: Option<real>, tags: RawTags,
                             notes: string, updatedAt: string)

  /** What every sanitised hero satisfies. */
  predicate HeroValid(h: Hero) {
    && |h.name| <= 60
    && |h.notes| <= 500
    && h.level >= 1
    && h.stars >= 0
    && forall i :: 0 <= i < |h.tags| ==> TagClean(h.tags[i])
  }

  /** Math.max(least, Math.floor(value)) for a finite value, `least`
      otherwise. */
  function WholeAtLeast(value: Option<real>, least: int): (n: int)
    ensures n >= least
    ensures value.None? ==> n == least
    ensures value.Some? && value.value < least as real ==> n == least
    ensures value.Some? && value.value >= least as real ==> n as real <= value.value < n as real + 1.0
  {
    if value.None? then least
    else
      var f := value.value.Floor;
      if f < least then least else f
  }

  /** The tags sanitizeHero keeps, or None when it throws. */
  function SanitizeTags(tags: RawTags): (r: Option<seq<string>>)
    ensures r.None? <==> tags.TagOther?
    ensures r.Some? ==> forall i :: 0 <= i < |r.value| ==> TagClean(r.value[i])
    ensures tags.TagText? ==> r == Some(NormalizeTags(tags.text))
    ensures tags.TagList? ==> r == Some(CleanTags(tags.items))
  {
    match tags
    case TagList(items) =>
      CleanTagsAreClean(items);
      Some(CleanTags(items))
    case TagText(text) => Some(NormalizeTags(text))
    case TagOther => None
  }

  /** sanitizeHero, with the id `randomId()` would make and the time
      `nowIso()` would read passed in; None when it throws (tags that are
      neither an array nor text). */
  function SanitizeHero(h: RawHero, freshId: string, now: string): (r: Option<Hero>)
    ensures r.None? <==> h.tags.TagOther?
    ensures r.Some? ==> HeroValid(r.value)
    ensures r.Some? && |Trim(h.name)| <= 60 ==> r.value.name == Trim(h.name)
    ensures r.Some? && |Trim(h.name)| > 60 ==> r.value.name == Trim(h.name)[..60]
    ensures r.Some? && |Trim(h.notes)| <= 500 ==> r.value.notes == Trim(h.notes)
    ensures r.Some? && |Trim(h.notes)| > 500 ==> r.value.notes == Trim(h.notes)[..500]
    ensures r.Some? && (h.level.None? || h.level.value < 1.0) ==> r.value.level == 1
    ensures r.Some? && h.level.Some? && h.level.value >= 1.0 ==>
      r.value.level as real <= h.level.value < r.value.level as real + 1.0
    ensures r.Some? && (h.stars.None? || h.stars.value < 0.0) ==> r.value.stars == 0
    ensures r.Some? && h.stars.Some? && h.stars.value >= 0.0 ==>
      r.value.stars as real <= h.stars.value < r.value.stars as real + 1.0
    ensures r.Some? ==> Some(r.value.tags) == SanitizeTags(h.tags)
    ensures r.Some? ==> r.value.id == if h.id == [] then freshId else h.id
    ensures r.Some? ==> r.value.updatedAt == if h.updatedAt == [] then now else h.updatedAt
  {
    match SanitizeTags(h.tags)
    case None => None
    case Some(tags) =>
      Some(Hero(if h.id == [] then freshId else h.id,
                Take(Trim(h.name), 60),
                WholeAtLeast(h.level, 1),
                WholeAtLeast(h.stars, 0),
                tags,
                Take(Trim(h.notes), 500),
                if h.updatedAt == [] then now else h.updatedAt))
  }

  /** A hero as saved: its fields written out, tags as an array. */
  function AsRaw(h: Hero): RawHero {
    RawHero(h.id, h.name, Some(h.level as real), Some(h.stars as real), TagList(h.tags), h.notes, h.updatedAt)
  }

  /** A hero that has an id and a timestamp and whose name and notes end in
      no white space: loading it after saving gives it back. */
  predicate Stable(h: Hero) {
    HeroValid(h) && IsTrimmed(h.name) && IsTrimmed(h.notes) && h.id != [] && h.updatedAt != []
  }

  /** Saving a hero and loading it again changes nothing. */
  lemma SanitizeHeroRoundTrip(h: Hero, freshId: string, now: string)
    requires Stable(h)
    ensures SanitizeHero(AsRaw(h), freshId, now) == Some(h)
  {
    TrimOfTrimmed(h.name);
    TrimOfTrimmed(h.notes);
    CleanTagsOfClean(h.tags);
  }

  /** A stored entry sanitizeHero accepts: not `null` (reading a field of
      `null` throws) and without tags it throws on. */
  predicate Loads(entry: Option<RawHero>) {
    entry.Some? && !entry.value.tags.TagOther?
  }

  /** loadRoster: a stored array is sanitised hero by hero, and an entry
      on which sanitizeHero throws makes the whole roster load empty, as
      does anything that is not an array. An entry is None for a stored
      `null`. `freshIds[i]` is the id the i-th hero gets when it has none. */
  function LoadRoster(stored: Option<seq<Option<RawHero>>>, freshIds: seq<string>, now: string)
    : (roster: seq<Hero>)
    requires stored.Some? ==> |freshIds| == |stored.value|
    ensures stored.None? ==> roster == []
    ensures stored.Some? && (exists i :: 0 <= i < |stored.value| && !Loads(stored.value[i])) ==> roster == []
    ensures stored.Some? && (forall i :: 0 <= i < |stored.value| ==> Loads(stored.value[i])) ==>
      && |roster| == |stored.value|
      && forall i :: 0 <= i < |roster| ==> Some(roster[i]) == SanitizeHero(stored.value[i].value, freshIds[i], now)
    ensures forall i :: 0 <= i < |roster| ==> HeroValid(roster[i])
  {
    match stored
    case None => []
    case Some(entries) =>
      if forall i :: 0 <= i < |entries| ==> Loads(entries[i]) then
        seq(|entries|, i requires 0 <= i < |entries| && Loads(entries[i]) =>
          SanitizeHero(entries[i].value, freshIds[i], now).value)
      else []
  }

  // ---------------------------------------------------------------------
  // Adding and editing through the form (upsertHeroFromForm)
  // ---------------------------------------------------------------------

  /** The form's fields: the hidden id, the name, the level and stars after
      `Number(...)`, the tags text and the notes. */
  datatype HeroForm = HeroForm(id: string, name: string, level: Option<real>, stars: Option<real>, tags: string,
                               notes: string)

  /** The hero the form describes: an empty (or blank) id field means a new
      hero with a fresh id; tags are normalised from the text. */
  function FormHero(f: HeroForm, freshId: string, now: string): (h: Hero)
    ensures HeroValid(h)
    ensures h.id == if Trim(f.id) == [] then freshId else Trim(f.id)
    ensures h.name == Take(Trim(f.name), 60)
    ensures h.tags == NormalizeTags(f.tags)
    ensures h.notes == Take(Trim(f.notes), 500)
    ensures f.level.None? || f.level.value < 1.0 ==> h.level == 1
    ensures f.level.Some? && f.level.value >= 1.0 ==> h.level as real <= f.level.value < h.level as real + 1.0
    ensures f.stars.None? || f.stars.value < 0.0 ==> h.stars == 0
    ensures f.stars.Some? && f.stars.value >= 0.0 ==> h.stars as real <= f.stars.value < h.stars as real + 1.0
    ensures now != [] ==> h.updatedAt == now
    ensures Some(h) == SanitizeHero(RawHero(if Trim(f.id) == [] then freshId else Trim(f.id), f.name, f.level, f.stars,
                                            TagList(NormalizeTags(f.tags)), f.notes, now), freshId, now)
  {
    var id := Trim(f.id);
    var h := SanitizeHero(RawHero(if id == [] then freshId else id, f.name, f.level, f.stars,
                                  TagList(NormalizeTags(f.tags)), f.notes, now), freshId, now).value;
    CleanTagsOfClean(NormalizeTags(f.tags));
    h
  }

  predicate HasId(h: Hero, id: string) {
    h.id == id
  }

  /** The roster after saving `h`: the first hero with the same id is
      replaced in place, otherwise `h` is appended. */
  function Upserted(roster: seq<Hero>, h: Hero): (r: seq<Hero>)
    ensures (exists i :: 0 <= i < |roster| && roster[i].id == h.id) ==>
      var k := FindFirst(roster, (x: Hero) => HasId(x, h.id)).value;
      && |r| == |roster| && r[k] == h
      && (forall j :: 0 <= j < k ==> roster[j].id != h.id)
      && (forall j :: 0 <= j < |roster| && j != k ==> r[j] == roster[j])
    ensures (forall i :: 0 <= i < |roster| ==> roster[i].id != h.id) ==> r == roster + [h]
  {
    match FindFirst(roster, (x: Hero) => HasId(x, h.id))
    case Some(k) => roster[k := h]
    case None => roster + [h]
  }

  /** Saving a valid hero keeps every hero valid. */
  lemma UpsertKeepsValid(roster: seq<Hero>, h: Hero)
    requires forall i :: 0 <= i < |roster| ==> HeroValid(roster[i])
    requires HeroValid(h)
    ensures var r := Upserted(roster, h); forall i :: 0 <= i < |r| ==> HeroValid(r[i])
  {
  }

  /** No two heroes share an id. */
  predicate UniqueIds(roster: seq<Hero>) {
    forall i, j :: 0 <= i < j < |roster| ==> roster[i].id != roster[j].id
  }

  /** Saving through the form never creates a second hero with an id. */
  lemma UpsertKeepsUniqueIds(roster: seq<Hero>, h: Hero)
    requires UniqueIds(roster)
    ensures UniqueIds(Upserted(roster, h))
  {
    var r := Upserted(roster, h);
    if exists i :: 0 <= i < |roster| && roster[i].id == h.id {
      var k := FindFirst(roster, (x: Hero) => HasId(x, h.id)).value;
      forall i, j | 0 <= i < j < |r|
        ensures r[i].id != r[j].id
      {
        if i == k {
          assert roster[j].id != roster[k].id;
        } else if j == k {
          assert roster[i].id != roster[k].id;
        }
      }
    }
  }

  /** After saving, looking the id up (as the edit dialog does) finds the
      saved hero. */
  lemma UpsertThenFind(roster: seq<Hero>, h: Hero)
    ensures var r := Upserted(roster, h);
      var k := FindFirst(r, (x: Hero) => HasId(x, h.id));
      k.Some? && r[k.value] == h
  {
    var r := Upserted(roster, h);
    var f := FindFirst(r, (x: Hero) => HasId(x, h.id));
    if exists i :: 0 <= i < |roster| && roster[i].id == h.id {
      var k := FindFirst(roster, (x: Hero) => HasId(x, h.id)).value;
      assert HasId(r[k], h.id);
      assert f.Some?;
      assert f.value == k;
    } else {
      assert HasId(r[|roster|], h.id);
    }
  }

  /** Saving the same hero twice is saving it once. */
  lemma UpsertIdempotent(roster: seq<Hero>, h: Hero)
    ensures Upserted(Upserted(roster, h), h) == Upserted(roster, h)
  {
    var r := Upserted(roster, h);
    UpsertThenFind(roster, h);
    var k := FindFirst(r, (x: Hero) => HasId(x, h.id)).value;
    assert HasId(r[k], h.id);
    assert r[k := h] == r;
  }

  // ---------------------------------------------------------------------
  // Deleting (the delete action's filter)
  // ---------------------------------------------------------------------

  /** The roster without every hero that has the id, others in order. */
  function Deleted(roster: seq<Hero>, id: string): (r: seq<Hero>)
    ensures forall i :: 0 <= i < |r| ==> r[i].id != id
  {
    Filter(roster, (x: Hero) => !HasId(x, id))
  }

  /** A hero survives a delete exactly when it was there with another id. */
  lemma DeletedMembership(roster: seq<Hero>, id: string, h: Hero)
    ensures h in Deleted(roster, id) <==> h in roster && h.id != id
  {
    FilterMembership(roster, (x: Hero) => !HasId(x, id), h);
  }

  /** Deleting a hero that was just added gives the roster back. */
  lemma DeleteUndoesAdd(roster: seq<Hero>, h: Hero)
    requires forall i :: 0 <= i < |roster| ==> roster[i].id != h.id
    ensures Deleted(Upserted(roster, h), h.id) == roster
  {
    var keep := (x: Hero) => !HasId(x, h.id);
    FilterConcat(roster, [h], keep);
    FilterAll(roster, keep);
  }

  // ---------------------------------------------------------------------
  // The search box and the tag filter (the filters of rosterForView)
  // ---------------------------------------------------------------------

  /** The text a search looks in: name, notes, tags, level and stars,
      joined by spaces and lowercased. */
  function Haystack(h: Hero): string {
    Lower(Join([h.name, h.notes, Join(h.tags, " "), IntToString(h.level), IntToString(h.stars)], " "))
  }

  predicate MatchesQuery(h: Hero, q: string) {
    q == [] || Contains(Haystack(h), q)
  }

  predicate MatchesTag(h: Hero, tag: string) {
    tag == "all" || tag in h.tags
  }

  /** The tag filter's value; an empty value counts as "all". */
  function TagChoice(value: string): string {
    if value == [] then "all" else value
  }

  /** The heroes the table shows, before sorting by name: those matching
      the trimmed, lowercased search and the chosen tag, in roster order. */
  function HeroesForView(roster: seq<Hero>, search: string, tagValue: string): (view: seq<Hero>)
    ensures |view| <= |roster|
  {
    var q := Lower(Trim(search));
    var tag := TagChoice(tagValue);
    Filter(Filter(roster, (h: Hero) => MatchesQuery(h, q)), (h: Hero) => MatchesTag(h, tag))
  }

  /** The view shows exactly the heroes whose text contains the search and
      that carry the chosen tag. */
  lemma HeroesForViewMembership(roster: seq<Hero>, search: string, tagValue: string, h: Hero)
    ensures h in HeroesForView(roster, search, tagValue)
        <==> && h in roster
             && (Trim(search) == [] || Contains(Haystack(h), Lower(Trim(search))))
             && (TagChoice(tagValue) == "all" || TagChoice(tagValue) in h.tags)
  {
    var q := Lower(Trim(search));
    var tag := TagChoice(tagValue);
    var byQuery := Filter(roster, (x: Hero) => MatchesQuery(x, q));
    FilterMembership(roster, (x: Hero) => MatchesQuery(x, q), h);
    FilterMembership(byQuery, (x: Hero) => MatchesTag(x, tag), h);
  }

  /** A blank search and the "all" tag show the whole roster, in order. */
  lemma HeroesForViewEveryone(roster: seq<Hero>, search: string, tagValue: string)
    requires Trim(search) == [] && TagChoice(tagValue) == "all"
    ensures HeroesForView(roster, search, tagValue) == roster
  {
    var q := Lower(Trim(search));
    FilterAll(roster, (x: Hero) => MatchesQuery(x, q));
    FilterAll(roster, (x: Hero) => MatchesTag(x, "all"));
  }

  /** A hero whose name contains the search, ignoring case, matches it. */
  lemma NameMatchFound(h: Hero, q: string)
    requires Contains(Lower(h.name), q)
    ensures MatchesQuery(h, q)
  {
    var rest := Join([h.notes, Join(h.tags, " "), IntToString(h.level), IntToString(h.stars)], " ");
    var parts := [h.name, h.notes, Join(h.tags, " "), IntToString(h.level), IntToString(h.stars)];
    assert parts[1..] == [h.notes, Join(h.tags, " "), IntToString(h.level), IntToString(h.stars)];
    assert Join(parts, " ") == h.name + (" " + rest);
    LowerConcat(h.name, " " + rest);
    ContainsAppendRight(Lower(h.name), Lower(" " + rest), q);
  }

  // ---------------------------------------------------------------------
  // The tag filter's options (updateTagFilterOptions)
  // ---------------------------------------------------------------------

  function HeroTags(h: Hero): seq<string> { h.tags }

  /** Every hero's tags, one after the other. */
  function AllTags(roster: seq<Hero>): seq<string>
  {
    FlatMap(HeroTags, roster)
  }

  lemma AllTagsMembership(roster: seq<Hero>, t: string)
    ensures t in AllTags(roster) <==> exists i :: 0 <= i < |roster| && t in roster[i].tags
  {
    FlatMapMembership(HeroTags, roster, t);
    assert forall i :: 0 <= i < |roster| ==> HeroTags(roster[i]) == roster[i].tags;
  }

  /** A JS Set filled from `s` in order, read back as an array: each value
      once, at its first occurrence. */
  function Distinct(s: seq<string>): (r: seq<string>)
    ensures forall i, j :: 0 <= i < j < |r| ==> r[i] != r[j]
    ensures forall t :: t in r <==> t in s
    decreases |s|
  {
    if s == [] then []
    else
      var d := Distinct(s[..|s| - 1]);
      assert forall t :: t in s <==> t in s[..|s| - 1] || t == s[|s| - 1] by {
        assert s == s[..|s| - 1] + [s[|s| - 1]];
      }
      if s[|s| - 1] in d then d else d + [s[|s| - 1]]
  }

  /** Adding one more value to the set. */
  lemma DistinctSnoc(s: seq<string>, t: string)
    ensures Distinct(s + [t]) == if t in Distinct(s) then Distinct(s) else Distinct(s) + [t]
  {
    assert (s + [t])[..|s|] == s;
  }

  /** The tags of one more hero. */
  lemma AllTagsSnoc(roster: seq<Hero>, i: nat)
    requires i < |roster|
    ensures AllTags(roster[..i + 1]) == AllTags(roster[..i]) + roster[i].tags
  {
    assert roster[..i + 1] == roster[..i] + [roster[i]];
    FlatMapConcat(HeroTags, roster[..i], [roster[i]]);
    assert FlatMap(HeroTags, [roster[i]]) == roster[i].tags + FlatMap(HeroTags, []);
  }

  /** The loop that fills the set: every tag of every hero, in order,
      added when not yet present. */
  method CollectTags(roster: seq<Hero>) returns (tags: seq<string>)
    ensures tags == Distinct(AllTags(roster))
  {
    tags := [];
    var i := 0;
    while i < |roster|
      invariant 0 <= i <= |roster|
      invariant tags == Distinct(AllTags(roster[..i]))
    {
      AllTagsSnoc(roster, i);
      tags := AddTags(tags, AllTags(roster[..i]), roster[i].tags);
      i := i + 1;
    }
    assert roster[..i] == roster;
  }

  /** The inner loop: one hero's tags added to the set in order. */
  method AddTags(tags: seq<string>, ghost before: seq<string>, heroTags: seq<string>) returns (r: seq<string>)
    requires tags == Distinct(before)
    ensures r == Distinct(before + heroTags)
  {
    r := tags;
    assert before + heroTags[..0] == before;
    var j := 0;
    while j < |heroTags|
      invariant 0 <= j <= |heroTags|
      invariant r == Distinct(before + heroTags[..j])
    {
      var t := heroTags[j];
      assert before + heroTags[..j + 1] == (before + heroTags[..j]) + [t];
      DistinctSnoc(before + heroTags[..j], t);
      if t !in r {
        r := r + [t];
      }
      j := j + 1;
    }
    assert heroTags[..j] == heroTags;
  }

  /** Strictly increasing in character order, the order of `.sort()` for
      text inside the Basic Multilingual Plane. */
  predicate SortedStrict(s: seq<string>) {
    forall i, j :: 0 <= i < j < |s| ==> StrLess(s[i], s[j])
  }

  /** `x` put in its place in a sorted sequence that lacks it. */
  function InsertTag(x: string, s: seq<string>): (r: seq<string>)
    requires SortedStrict(s) && x !in s
    ensures SortedStrict(r)
    ensures multiset(r) == multiset(s) + multiset{x}
    decreases |s|
  {
    if s == [] then [x]
    else if StrLess(x, s[0]) then
      BelowHead(x, s);
      ConsSorted(x, s);
      [x] + s
    else
      StrLessTotal(x, s[0]);
      var rest := InsertTag(x, s[1..]);
      assert s == [s[0]] + s[1..];
      HeadBelowInserted(s, x, rest);
      ConsSorted(s[0], rest);
      [s[0]] + rest
  }

  /** Below the first of a sorted sequence is below all of it. */
  lemma BelowHead(x: string, s: seq<string>)
    requires SortedStrict(s) && s != [] && StrLess(x, s[0])
    ensures forall j :: 0 <= j < |s| ==> StrLess(x, s[j])
  {
    forall j | 0 < j < |s|
      ensures StrLess(x, s[j])
    {
      StrLessTransitive(x, s[0], s[j]);
    }
  }

  /** The first of a sorted sequence stays below everything once a larger
      value goes into the rest. */
  lemma HeadBelowInserted(s: seq<string>, x: string, rest: seq<string>)
    requires SortedStrict(s) && s != [] && StrLess(s[0], x)
    requires multiset(rest) == multiset(s[1..]) + multiset{x}
    ensures forall j :: 0 <= j < |rest| ==> StrLess(s[0], rest[j])
  {
    forall j | 0 <= j < |rest|
      ensures StrLess(s[0], rest[j])
    {
      assert rest[j] in multiset(rest);
      if rest[j] != x {
        assert rest[j] in multiset(s[1..]);
        var k :| 0 <= k < |s[1..]| && s[1..][k] == rest[j];
        assert s[k + 1] == rest[j];
      }
    }
  }

  lemma ConsSorted(h: string, rest: seq<string>)
    requires SortedStrict(rest)
    requires forall j :: 0 <= j < |rest| ==> StrLess(h, rest[j])
    ensures SortedStrict([h] + rest)
  {
    var r := [h] + rest;
    forall i, j | 0 <= i < j < |r|
      ensures StrLess(r[i], r[j])
    {
      assert r[j] == rest[j - 1];
      if i > 0 {
        assert r[i] == rest[i - 1];
      }
    }
  }

  /** `Array.prototype.sort()` on distinct strings. */
  function SortTags(s: seq<string>): (r: seq<string>)
    requires forall i, j :: 0 <= i < j < |s| ==> s[i] != s[j]
    ensures SortedStrict(r)
    ensures multiset(r) == multiset(s)
    decreases |s|
  {
    if s == [] then []
    else
      var init := s[..|s| - 1];
      var sorted := SortTags(init);
      LastNotEarlier(s);
      assert s[|s| - 1] !in multiset(init);
      assert s == init + [s[|s| - 1]];
      InsertTag(s[|s| - 1], sorted)
  }

  lemma LastNotEarlier(s: seq<string>)
    requires s != []
    requires forall i, j :: 0 <= i < j < |s| ==> s[i] != s[j]
    ensures s[|s| - 1] !in s[..|s| - 1]
  {
    var init := s[..|s| - 1];
    forall k | 0 <= k < |init|
      ensures init[k] != s[|s| - 1]
    {
      assert init[k] == s[k];
    }
  }

  /** The tag filter's options after "All": each tag of the roster once,
      sorted. */
  function TagOptions(roster: seq<Hero>): (options: seq<string>)
    ensures SortedStrict(options)
  {
    SortTags(Distinct(AllTags(roster)))
  }

  /** The options are exactly the tags some hero carries. */
  lemma TagOptionsMembership(roster: seq<Hero>, t: string)
    ensures t in TagOptions(roster) <==> exists i :: 0 <= i < |roster| && t in roster[i].tags
  {
    var d := Distinct(AllTags(roster));
    assert t in TagOptions(roster) <==> t in multiset(d);
    AllTagsMembership(roster, t);
  }

  /** The filter keeps its value when that value is still offered, and
      falls back to "all" otherwise. */
  function SelectedTag(options: seq<string>, value: string): (selected: string)
    ensures selected == "all" || selected in options
    ensures TagChoice(value) in options ==> selected == TagChoice(value)
    ensures TagChoice(value) !in options ==> selected == "all"
  {
    var current := TagChoice(value);
    if current in options then current else "all"
  }

  // ---------------------------------------------------------------------
  // The page's roster
  // ---------------------------------------------------------------------

  class HeroRoster {
    var heroes: seq<Hero>

    predicate Valid()
      reads this
    {
      forall i :: 0 <= i < |heroes| ==> HeroValid(heroes[i])
    }

    /** loadRoster */
    constructor (stored: Option<seq<Option<RawHero>>>, freshIds: seq<string>, now: string)
      requires stored.Some? ==> |freshIds| == |stored.value|
      ensures heroes == LoadRoster(stored, freshIds, now)
      ensures Valid()
    {
      heroes := LoadRoster(stored, freshIds, now);
    }

    /** upsertHeroFromForm: a hero without a name is not saved; otherwise
        the hero with its id is replaced in place or the hero is added at
        the end. */
    method UpsertFromForm(f: HeroForm, freshId: string, now: string)
      requires Valid()
      modifies this
      ensures Valid()
      ensures var h := FormHero(f, freshId, now);
        if h.name == [] then heroes == old(heroes) else heroes == Upserted(old(heroes), h)
    {
      var h := FormHero(f, freshId, now);
      if h.name == [] {
        return;
      }
      UpsertKeepsValid(heroes, h);
      var idx := FindFirst(heroes, (x: Hero) => HasId(x, h.id));
      if idx.Some? {
        heroes := heroes[idx.value := h];
      } else {
        heroes := heroes + [h];
      }
      assert heroes == Upserted(old(heroes), h);
    }

    /** The delete action, once confirmed. */
    method Delete(id: string)
      requires Valid()
      modifies this
      ensures Valid()
      ensures heroes == Deleted(old(heroes), id)
    {
      heroes := Filter(heroes, (x: Hero) => !HasId(x, id));
    }

    /** The clear-all action, once confirmed. */
    method ClearAll()
      modifies this
      ensures Valid()
      ensures heroes == []
    {
      heroes := [];
    }
  }
}
