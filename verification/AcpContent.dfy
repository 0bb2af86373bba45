/** Prompt content in two versions of the Agent Client Protocol, and the
    conversions between them. Either version can grow variants the conversions do
    not know, and a prompt with one of them is refused before it is sent, exactly
    when converting it would fail. What a round trip changes is stated block by
    block. */
module AcpContent {
  import opened Wrappers

  const TWO_TO_63 := 0x8000_0000_0000_0000

  type I64 = x: int | -TWO_TO_63 <= x < TWO_TO_63
  type U64 = x: int | 0 <= x < 2 * TWO_TO_63

  /** Opaque JSON. */
  type Meta = Option<string>

  /** Versions can grow: `NewRole`, `NewResource` and `NewBlock` stand for variants
      these conversions do not know. */
  datatype Role1 = Assistant1 | User1 | NewRole1
  datatype Role2 = Assistant2 | User2 | OtherRole(name: string) | NewRole2

  datatype Annotations<R> = Annotations(audience: Option<seq<R>>, lastModified: Option<string>,
                                        priority: Option<real>, meta: Meta)

  datatype Resource = TextResource(text: string, uri: string, mimeType: Option<string>, meta: Meta)
                    | BlobResource(blob: string, uri: string, mimeType: Option<string>, meta: Meta)
                    | NewResource

  type Notes1 = Option<Annotations<Role1>>
  type Notes2 = Option<Annotations<Role2>>

  datatype Block1 =
    | Text1(text: string, notes: Notes1, meta: Meta)
    | Image1(data: string, mimeType: string, uri: Option<string>, notes: Notes1, meta: Meta)
    | Audio1(data: string, mimeType: string, notes: Notes1, meta: Meta)
    | Link1(name: string, target: string, title: Option<string>, description: Option<string>, linkType: Option<string>,
            size: Option<I64>, notes: Notes1, meta: Meta)
    | Embedded1(resource: Resource, notes: Notes1, meta: Meta)
    | NewBlock1

  datatype Block2 =
    | Text2(text: string, notes: Notes2, meta: Meta)
    | Image2(data: string, mimeType: string, uri: Option<string>, notes: Notes2, meta: Meta)
    | Audio2(data: string, mimeType: string, notes: Notes2, meta: Meta)
    | Link2(name: string, target: string, title: Option<string>, description: Option<string>, linkType: Option<string>,
            size: Option<U64>, icons: Option<seq<string>>, notes: Notes2, meta: Meta)
    | Embedded2(resource: Resource, notes: Notes2, meta: Meta)
    | Other2(kind: string)
    | NewBlock2

  datatype Unsupported = Unsupported

  type Converted<T> = Result<T, Unsupported>

  // ---------- annotations ----------

  function RoleTo1(r: Role2): Converted<Role1> {
    match r
    case Assistant2 => Ok(Assistant1)
    case User2 => Ok(User1)
    case OtherRole(_) => Err(Unsupported)
    case NewRole2 => Err(Unsupported)
  }

  function RoleFrom1(r: Role1): Converted<Role2> {
    match r
    case Assistant1 => Ok(Assistant2)
    case User1 => Ok(User2)
    case NewRole1 => Err(Unsupported)
  }

  /** Convert all of them, or none. */
  function All<A, B>(xs: seq<A>, convert: A -> Converted<B>): (r: Converted<seq<B>>)
    ensures r.Ok? <==> forall i | 0 <= i < |xs| :: convert(xs[i]).Ok?
    ensures r.Ok? ==> |r.value| == |xs| && forall i | 0 <= i < |xs| :: convert(xs[i]) == Ok(r.value[i])
  {
    if xs == [] then Ok([])
    else
      var before, last := All(xs[..|xs| - 1], convert), convert(xs[|xs| - 1]);
      if before.Err? || last.Err? then Err(Unsupported) else Ok(before.value + [last.value])
  }

  function NotesWith<R, Q>(notes: Option<Annotations<R>>, convert: R -> Converted<Q>)
    : Converted<Option<Annotations<Q>>>
  {
    if notes.None? then Ok(None)
    else
      var a := notes.value;
      if a.audience.None? then Ok(Some(Annotations(None, a.lastModified, a.priority, a.meta)))
      else
        var audience := All(a.audience.value, convert);
        if audience.Err? then Err(Unsupported)
        else Ok(Some(Annotations(Some(audience.value), a.lastModified, a.priority, a.meta)))
  }

  function NotesTo1(notes: Notes2): Converted<Notes1> {
    NotesWith(notes, RoleTo1)
  }

  function NotesFrom1(notes: Notes1): Converted<Notes2> {
    NotesWith(notes, RoleFrom1)
  }

  // ---------- blocks ----------

  function SizeTo1(size: Option<U64>): Option<I64> {
    if size.Some? && size.value < TWO_TO_63 then Some(size.value) else None
  }

  /** Sizes of version 2 are byte counts: a negative one is unknown. */
  function SizeFrom1(size: Option<I64>): Option<U64> {
    if size.Some? && size.value >= 0 then Some(size.value) else None
  }

  predicate HasIcons(b: Block2)
    requires b.Link2?
  {
    b.icons.Some? && b.icons.value != []
  }

  function To1(b: Block2): Converted<Block1> {
    match b
    case Text2(text, notes, meta) =>
      var n := NotesTo1(notes);
      if n.Err? then Err(Unsupported) else Ok(Text1(text, n.value, meta))
    case Image2(data, mimeType, uri, notes, meta) =>
      var n := NotesTo1(notes);
      if n.Err? then Err(Unsupported) else Ok(Image1(data, mimeType, uri, n.value, meta))
    case Audio2(data, mimeType, notes, meta) =>
      var n := NotesTo1(notes);
      if n.Err? then Err(Unsupported) else Ok(Audio1(data, mimeType, n.value, meta))
    case Link2(name, uri, title, description, linkType, size, icons, notes, meta) =>
      if HasIcons(b) then Err(Unsupported)
      else
        var n := NotesTo1(notes);
        if n.Err? then Err(Unsupported)
        else Ok(Link1(name, uri, title, description, linkType, SizeTo1(size), n.value, meta))
    case Embedded2(resource, notes, meta) =>
      var n := NotesTo1(notes);
      if resource.NewResource? || n.Err? then Err(Unsupported) else Ok(Embedded1(resource, n.value, meta))
    case Other2(_) => Err(Unsupported)
    case NewBlock2 => Err(Unsupported)
  }

  function From1(b: Block1): Converted<Block2> {
    match b
    case Text1(text, notes, meta) =>
      var n := NotesFrom1(notes);
      if n.Err? then Err(Unsupported) else Ok(Text2(text, n.value, meta))
    case Image1(data, mimeType, uri, notes, meta) =>
      var n := NotesFrom1(notes);
      if n.Err? then Err(Unsupported) else Ok(Image2(data, mimeType, uri, n.value, meta))
    case Audio1(data, mimeType, notes, meta) =>
      var n := NotesFrom1(notes);
      if n.Err? then Err(Unsupported) else Ok(Audio2(data, mimeType, n.value, meta))
    case Link1(name, uri, title, description, linkType, size, notes, meta) =>
      var n := NotesFrom1(notes);
      if n.Err? then Err(Unsupported)
      else Ok(Link2(name, uri, title, description, linkType, SizeFrom1(size), None, n.value, meta))
    case Embedded1(resource, notes, meta) =>
      var n := NotesFrom1(notes);
      if resource.NewResource? || n.Err? then Err(Unsupported) else Ok(Embedded2(resource, n.value, meta))
    case NewBlock1 => Err(Unsupported)
  }

  /** The test made before a prompt is sent. */
  predicate CanConvert(b: Block2) {
    match b
    case Text2(_, notes, _) => KnownAudience(notes)
    case Image2(_, _, _, notes, _) => KnownAudience(notes)
    case Audio2(_, _, notes, _) => KnownAudience(notes)
    case Link2(_, _, _, _, _, _, _, notes, _) => !HasIcons(b) && KnownAudience(notes)
    case Embedded2(resource, notes, _) => !resource.NewResource? && KnownAudience(notes)
    case Other2(_) => false
    case NewBlock2 => false
  }

  predicate KnownAudience(notes: Notes2) {
    notes.Some? && notes.value.audience.Some? ==>
      forall i | 0 <= i < |notes.value.audience.value| ::
        notes.value.audience.value[i].Assistant2? || notes.value.audience.value[i].User2?
  }

  predicate Validate(prompt: seq<Block2>) {
    forall i | 0 <= i < |prompt| :: CanConvert(prompt[i])
  }

  function PromptTo1(prompt: seq<Block2>): Converted<seq<Block1>> {
    All(prompt, To1)
  }

  // ---------- what the conversions keep ----------

  lemma {:induction false} KnownAudienceIff(notes: Notes2)
    ensures KnownAudience(notes) <==> NotesTo1(notes).Ok?
  {
    if notes.Some? && notes.value.audience.Some? {
      var audience := notes.value.audience.value;
      assert forall i | 0 <= i < |audience| ::
          RoleTo1(audience[i]).Ok? <==> audience[i].Assistant2? || audience[i].User2?;
    }
  }

  /** The test holds exactly when the conversion succeeds. */
  lemma {:induction false} CanConvertIff(b: Block2)
    ensures CanConvert(b) <==> To1(b).Ok?
  {
    match b
    case Text2(_, notes, _) => KnownAudienceIff(notes);
    case Image2(_, _, _, notes, _) => KnownAudienceIff(notes);
    case Audio2(_, _, notes, _) => KnownAudienceIff(notes);
    case Link2(_, _, _, _, _, _, _, notes, _) => KnownAudienceIff(notes);
    case Embedded2(_, notes, _) => KnownAudienceIff(notes);
    case Other2(_) =>
    case NewBlock2 =>
  }

  /** A prompt is valid exactly when all of it can be sent. */
  lemma {:induction false} ValidateIff(prompt: seq<Block2>)
    ensures Validate(prompt) <==> PromptTo1(prompt).Ok?
  {
    forall i | 0 <= i < |prompt| ensures CanConvert(prompt[i]) <==> To1(prompt[i]).Ok? {
      CanConvertIff(prompt[i]);
    }
  }

  ghost predicate SameAudience(a: seq<Role2>, b: seq<Role1>) {
    && |a| == |b|
    && forall i | 0 <= i < |a| :: (a[i] == Assistant2 && b[i] == Assistant1) || (a[i] == User2 && b[i] == User1)
  }

  ghost predicate SameNotes(a: Notes2, b: Notes1) {
    && (a.Some? <==> b.Some?)
    && (a.Some? ==>
          && a.value.lastModified == b.value.lastModified && a.value.priority == b.value.priority
          && a.value.meta == b.value.meta && (a.value.audience.Some? <==> b.value.audience.Some?)
          && (a.value.audience.Some? ==> SameAudience(a.value.audience.value, b.value.audience.value)))
  }

  /** The same content in both versions, but for icons and sizes. */
  ghost predicate SameBlock(a: Block2, b: Block1) {
    match b
    case Text1(text, notes, meta) => a.Text2? && a.text == text && SameNotes(a.notes, notes) && a.meta == meta
    case Image1(data, mimeType, uri, notes, meta) =>
      && a.Image2? && a.data == data && a.mimeType == mimeType && a.uri == uri
      && SameNotes(a.notes, notes) && a.meta == meta
    case Audio1(data, mimeType, notes, meta) =>
      a.Audio2? && a.data == data && a.mimeType == mimeType && SameNotes(a.notes, notes) && a.meta == meta
    case Link1(name, target, title, description, linkType, _, notes, meta) =>
      && a.Link2? && a.name == name && a.target == target && a.title == title && a.description == description
      && a.linkType == linkType && SameNotes(a.notes, notes) && a.meta == meta
    case Embedded1(resource, notes, meta) =>
      && a.Embedded2? && a.resource == resource && !resource.NewResource?
      && SameNotes(a.notes, notes) && a.meta == meta
    case NewBlock1 => false
  }

  lemma {:induction false} NotesTo1Same(notes: Notes2)
    requires NotesTo1(notes).Ok?
    ensures SameNotes(notes, NotesTo1(notes).value)
  {
    if notes.Some? && notes.value.audience.Some? {
      var audience := notes.value.audience.value;
      var roles := All(audience, RoleTo1).value;
      assert forall i | 0 <= i < |roles| :: RoleTo1(audience[i]) == Ok(roles[i]);
    }
  }

  lemma {:induction false} NotesFrom1Same(notes: Notes1)
    requires NotesFrom1(notes).Ok?
    ensures SameNotes(NotesFrom1(notes).value, notes)
  {
    if notes.Some? && notes.value.audience.Some? {
      var audience := notes.value.audience.value;
      var roles := All(audience, RoleFrom1).value;
      assert forall i | 0 <= i < |roles| :: RoleFrom1(audience[i]) == Ok(roles[i]);
    }
  }

  /** What arrives in version 1 is the same content; of a link the size stays where
      63 bits hold it, and there were no icons. */
  lemma {:induction false} To1Keeps(a: Block2)
    requires To1(a).Ok?
    ensures var b := To1(a).value;
            && SameBlock(a, b)
            && (a.Link2? ==>
                  && (a.icons.None? || a.icons == Some([]))
                  && (b.size.Some? <==> a.size.Some? && a.size.value < 9223372036854775808)
                  && (b.size.Some? ==> b.size.value == a.size.value))
  {
    match a
    case Text2(_, notes, _) => NotesTo1Same(notes);
    case Image2(_, _, _, notes, _) => NotesTo1Same(notes);
    case Audio2(_, _, notes, _) => NotesTo1Same(notes);
    case Link2(_, _, _, _, _, _, _, notes, _) => NotesTo1Same(notes);
    case Embedded2(_, notes, _) => NotesTo1Same(notes);
  }

  /** The same from version 1; of a link the size stays where it is not negative,
      and there are no icons. */
  lemma {:induction false} From1Keeps(b: Block1)
    requires From1(b).Ok?
    ensures var a := From1(b).value;
            && SameBlock(a, b)
            && (b.Link1? ==>
                  && a.icons.None?
                  && (a.size.Some? <==> b.size.Some? && b.size.value >= 0)
                  && (a.size.Some? ==> a.size.value == b.size.value))
  {
    match b
    case Text1(_, notes, _) => NotesFrom1Same(notes);
    case Image1(_, _, _, notes, _) => NotesFrom1Same(notes);
    case Audio1(_, _, notes, _) => NotesFrom1Same(notes);
    case Link1(_, _, _, _, _, _, notes, _) => NotesFrom1Same(notes);
    case Embedded1(_, notes, _) => NotesFrom1Same(notes);
  }

  /** From version 1, converting fails exactly on what it does not know. */
  lemma {:induction false} From1Iff(b: Block1)
    ensures From1(b).Ok?
            <==> !b.NewBlock1? && !(b.Embedded1? && b.resource.NewResource?)
                 && !(b.notes.Some? && b.notes.value.audience.Some? && NewRole1 in b.notes.value.audience.value)
  {
    if !b.NewBlock1? && b.notes.Some? && b.notes.value.audience.Some? {
      var audience := b.notes.value.audience.value;
      assert forall i | 0 <= i < |audience| :: RoleFrom1(audience[i]).Ok? <==> audience[i] != NewRole1;
    }
  }

  lemma {:induction false} Notes2Back(notes: Notes2)
    requires NotesTo1(notes).Ok?
    ensures NotesFrom1(NotesTo1(notes).value) == Ok(notes)
  {
    if notes.Some? && notes.value.audience.Some? {
      var audience := notes.value.audience.value;
      var roles := All(audience, RoleTo1).value;
      forall i | 0 <= i < |roles| ensures RoleFrom1(roles[i]) == Ok(audience[i]) {
        assert RoleTo1(audience[i]) == Ok(roles[i]);
      }
      assert All(roles, RoleFrom1).value == audience;
    }
  }

  lemma {:induction false} Notes1Back(notes: Notes1)
    requires NotesFrom1(notes).Ok?
    ensures NotesTo1(NotesFrom1(notes).value) == Ok(notes)
  {
    if notes.Some? && notes.value.audience.Some? {
      var audience := notes.value.audience.value;
      var roles := All(audience, RoleFrom1).value;
      forall i | 0 <= i < |roles| ensures RoleTo1(roles[i]) == Ok(audience[i]) {
        assert RoleFrom1(audience[i]) == Ok(roles[i]);
      }
      assert All(roles, RoleTo1).value == audience;
    }
  }

  /** What a block of version 2 loses on the way: an empty list of icons, and a
      size that version 1 cannot hold. */
  function Plain2(b: Block2): Block2 {
    if !b.Link2? then b
    else b.(icons := if HasIcons(b) then b.icons else None,
            size := if b.size.Some? && b.size.value >= TWO_TO_63 then None else b.size)
  }

  /** What a block of version 1 loses: a negative size. */
  function Plain1(b: Block1): Block1 {
    if !b.Link1? then b else b.(size := if b.size.Some? && b.size.value < 0 then None else b.size)
  }

  /** There and back, from version 2. */
  lemma {:induction false} Block2RoundTrip(b: Block2)
    requires To1(b).Ok?
    ensures From1(To1(b).value) == Ok(Plain2(b))
  {
    match b
    case Text2(_, notes, _) => Notes2Back(notes);
    case Image2(_, _, _, notes, _) => Notes2Back(notes);
    case Audio2(_, _, notes, _) => Notes2Back(notes);
    case Link2(_, _, _, _, _, _, _, notes, _) => Notes2Back(notes);
    case Embedded2(_, notes, _) => Notes2Back(notes);
  }

  /** There and back, from version 1: what was converted can be converted back. */
  lemma {:induction false} Block1RoundTrip(b: Block1)
    requires From1(b).Ok?
    ensures To1(From1(b).value) == Ok(Plain1(b))
  {
    match b
    case Text1(_, notes, _) => Notes1Back(notes);
    case Image1(_, _, _, notes, _) => Notes1Back(notes);
    case Audio1(_, _, notes, _) => Notes1Back(notes);
    case Link1(_, _, _, _, _, _, notes, _) => Notes1Back(notes);
    case Embedded1(_, notes, _) => Notes1Back(notes);
  }

  /** A block comes back unchanged exactly when it has nothing to lose. */
  lemma {:induction false} UnchangedIff(b: Block2)
    requires To1(b).Ok?
    ensures From1(To1(b).value) == Ok(b)
            <==> (b.Link2? ==> b.icons.None? && (b.size.Some? ==> b.size.value < TWO_TO_63))
  {
    Block2RoundTrip(b);
  }
}
