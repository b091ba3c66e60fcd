/** A model of the Emojifier utility of the Emojify-Me app: the expression
    classifier that turns a detected face's three probabilities into one of
    eight emoji, the switch that picks the drawable for an emoji, and the loop
    that overlays one emoji per detected face onto the picture.

    The face detector and the bitmap compositor are collaborators the model
    cannot see: the detector's output is a given sequence of faces, and the
    compositor is a function parameter over an abstract image type.
 */
module Emojifier {

  /** An optional value, for lookups that may find nothing. */
  datatype Option<T> = None | Some(value: T)

  /** The eight expressions the app can draw. */
  datatype Emoji =
    | Smile
    | Frown
    | LeftWink
    | RightWink
    | LeftWinkFrown
    | RightWinkFrown
    | ClosedEyeSmile
    | ClosedEyeFrown

  /** One face as the detector reports it: where it is, how large, and the
      three classification probabilities. */
  datatype Face = Face(
    x: real,
    y: real,
    width: real,
    height: real,
    smilingProbability: real,
    leftEyeOpenProbability: real,
    rightEyeOpenProbability: real)

  /** Name of a bundled drawable resource. */
  type ResourceName = string

  const SmilingProbThreshold: real := 0.15
  const EyeOpenProbThreshold: real := 0.15

  predicate IsSmiling(face: Face) {
    face.smilingProbability > SmilingProbThreshold
  }

  predicate IsLeftEyeClosed(face: Face) {
    face.leftEyeOpenProbability < EyeOpenProbThreshold
  }

  predicate IsRightEyeClosed(face: Face) {
    face.rightEyeOpenProbability < EyeOpenProbThreshold
  }

  /** The classifier. Each clause below characterises one family of results
      by the probabilities alone; together they determine the result. */
  function WhichEmoji(face: Face): (r: Emoji)
    ensures r in {Smile, LeftWink, RightWink, ClosedEyeSmile}
            <==> face.smilingProbability > SmilingProbThreshold
    ensures r in {Frown, LeftWinkFrown, RightWinkFrown, ClosedEyeFrown}
            <==> face.smilingProbability <= SmilingProbThreshold
    ensures r in {LeftWink, LeftWinkFrown}
            <==> (face.leftEyeOpenProbability < EyeOpenProbThreshold &&
                 face.rightEyeOpenProbability >= EyeOpenProbThreshold)
    ensures r in {RightWink, RightWinkFrown}
            <==> (face.rightEyeOpenProbability < EyeOpenProbThreshold &&
                 face.leftEyeOpenProbability >= EyeOpenProbThreshold)
    ensures r in {ClosedEyeSmile, ClosedEyeFrown}
            <==> (face.leftEyeOpenProbability < EyeOpenProbThreshold &&
                 face.rightEyeOpenProbability < EyeOpenProbThreshold)
    ensures r in {Smile, Frown}
            <==> (face.leftEyeOpenProbability >= EyeOpenProbThreshold &&
                 face.rightEyeOpenProbability >= EyeOpenProbThreshold)
  {
    var isSmiling := IsSmiling(face);
    var isLeftEyeClosed := IsLeftEyeClosed(face);
    var isRightEyeClosed := IsRightEyeClosed(face);
    if isSmiling then
      if isLeftEyeClosed && !isRightEyeClosed then LeftWink
      else if isRightEyeClosed && !isLeftEyeClosed then RightWink
      else if isLeftEyeClosed then ClosedEyeSmile
      else Smile
    else
      if isLeftEyeClosed && !isRightEyeClosed then LeftWinkFrown
      else if isRightEyeClosed && !isLeftEyeClosed then RightWinkFrown
      else if isLeftEyeClosed then ClosedEyeFrown
      else Frown
  }

  // ---------------------------------------------------------------------------
  // An independent description of the eight categories: an emoji is a mouth
  // together with an eye state, and the classifier reads each off the face
  // separately.

  datatype Mouth = Smiling | Frowning

  datatype Eyes = BothOpen | LeftClosedOnly | RightClosedOnly | BothClosed

  function ComposeEmoji(mouth: Mouth, eyes: Eyes): Emoji {
    match (mouth, eyes)
    case (Smiling, BothOpen) => Smile
    case (Smiling, LeftClosedOnly) => LeftWink
    case (Smiling, RightClosedOnly) => RightWink
    case (Smiling, BothClosed) => ClosedEyeSmile
    case (Frowning, BothOpen) => Frown
    case (Frowning, LeftClosedOnly) => LeftWinkFrown
    case (Frowning, RightClosedOnly) => RightWinkFrown
    case (Frowning, BothClosed) => ClosedEyeFrown
  }

  function MouthOf(e: Emoji): Mouth {
    if e in {Smile, LeftWink, RightWink, ClosedEyeSmile} then Smiling else Frowning
  }

  function EyesOf(e: Emoji): Eyes {
    match e
    case Smile | Frown => BothOpen
    case LeftWink | LeftWinkFrown => LeftClosedOnly
    case RightWink | RightWinkFrown => RightClosedOnly
    case ClosedEyeSmile | ClosedEyeFrown => BothClosed
  }

  function MouthFor(face: Face): Mouth {
    if IsSmiling(face) then Smiling else Frowning
  }

  function EyesFor(face: Face): Eyes {
    match (IsLeftEyeClosed(face), IsRightEyeClosed(face))
    case (false, false) => BothOpen
    case (true, false) => LeftClosedOnly
    case (false, true) => RightClosedOnly
    case (true, true) => BothClosed
  }

  /** Every emoji is exactly one mouth with exactly one eye state: the eight
      values are the eight combinations, each once. */
  lemma EmojiIsMouthAndEyes(e: Emoji, mouth: Mouth, eyes: Eyes)
    ensures ComposeEmoji(MouthOf(e), EyesOf(e)) == e
    ensures MouthOf(ComposeEmoji(mouth, eyes)) == mouth
    ensures EyesOf(ComposeEmoji(mouth, eyes)) == eyes
  {
  }

  /** The nested if/else agrees with the mouth-and-eyes table, in particular
      the third branch is only reached when both eyes are closed. */
  lemma WhichEmojiMatchesTable(face: Face)
    ensures WhichEmoji(face) == ComposeEmoji(MouthFor(face), EyesFor(face))
    ensures MouthOf(WhichEmoji(face)) == MouthFor(face)
    ensures EyesOf(WhichEmoji(face)) == EyesFor(face)
  {
  }

  /** No category is dead: each of the eight is chosen for some face. */
  lemma EveryEmojiIsReachable(e: Emoji)
    ensures exists face: Face :: WhichEmoji(face) == e
  {
    var smiling := if MouthOf(e) == Smiling then 0.9 else 0.1;
    var left := if EyesOf(e) in {LeftClosedOnly, BothClosed} then 0.05 else 0.9;
    var right := if EyesOf(e) in {RightClosedOnly, BothClosed} then 0.05 else 0.9;
    var face := Face(0.0, 0.0, 1.0, 1.0, smiling, left, right);
    WhichEmojiMatchesTable(face);
    EmojiIsMouthAndEyes(e, Smiling, BothOpen);
    assert WhichEmoji(face) == e;
  }

  /** At exactly the threshold, a face is not smiling and an eye is open. */
  lemma ThresholdIsExclusive(face: Face)
    ensures face.smilingProbability == SmilingProbThreshold ==>
              MouthOf(WhichEmoji(face)) == Frowning
    ensures face.leftEyeOpenProbability == EyeOpenProbThreshold ==>
              EyesOf(WhichEmoji(face)) in {BothOpen, RightClosedOnly}
    ensures face.rightEyeOpenProbability == EyeOpenProbThreshold ==>
              EyesOf(WhichEmoji(face)) in {BothOpen, LeftClosedOnly}
  {
  }

  /** A smiling face with the left eye shut and the right eye open is a left wink. */
  lemma SmilingLeftWinkExample()
    ensures WhichEmoji(Face(0.0, 0.0, 1.0, 1.0, 0.9, 0.05, 0.9)) == LeftWink
  {
  }

  // ---------------------------------------------------------------------------
  // Choosing the drawable for an emoji.

  /** The `switch` from emoji to the bundled drawable drawn for it. The match
      covers all eight values, as the source's `case` labels do, so its
      `default` arm has no counterpart here. The drawable names the emoji:
      looking the name up among the eight gives the emoji back. */
  function EmojiDrawable(e: Emoji): (name: ResourceName)
    ensures EmojiForDrawable(name) == Some(e)
  {
    match e
    case Smile => "smile"
    case Frown => "frown"
    case LeftWink => "leftwink"
    case RightWink => "rightwink"
    case LeftWinkFrown => "leftwinkfrown"
    case RightWinkFrown => "rightwinkfrown"
    case ClosedEyeSmile => "closed_smile"
    case ClosedEyeFrown => "closed_frown"
  }

  /** The emoji whose drawable has the given name, if there is one. */
  function EmojiForDrawable(name: ResourceName): Option<Emoji> {
    if name == "smile" then Some(Smile)
    else if name == "frown" then Some(Frown)
    else if name == "leftwink" then Some(LeftWink)
    else if name == "rightwink" then Some(RightWink)
    else if name == "leftwinkfrown" then Some(LeftWinkFrown)
    else if name == "rightwinkfrown" then Some(RightWinkFrown)
    else if name == "closed_smile" then Some(ClosedEyeSmile)
    else if name == "closed_frown" then Some(ClosedEyeFrown)
    else None
  }

  /** Different emoji are drawn with different drawables. */
  lemma EmojiDrawableInjective(e1: Emoji, e2: Emoji)
    ensures EmojiDrawable(e1) == EmojiDrawable(e2) <==> e1 == e2
  {
  }

  // ---------------------------------------------------------------------------
  // The face loop.

  /** The picture after overlaying the faces in index order onto `img`, each
      with the drawable of the emoji chosen for it: a left fold of
      `addBitmapToFace` over `faces`. */
  function OverlayAll<Image>(
    addBitmapToFace: (Image, ResourceName, Face) -> Image,
    img: Image,
    faces: seq<Face>): Image
    decreases |faces|
  {
    if faces == [] then img
    else
      var face := faces[|faces| - 1];
      addBitmapToFace(
        OverlayAll(addBitmapToFace, img, faces[..|faces| - 1]),
        EmojiDrawable(WhichEmoji(face)),
        face)
  }

  /** Overlaying `a` and then `b` is overlaying `a + b`. */
  lemma {:induction false} OverlayAllAppend<Image>(
    addBitmapToFace: (Image, ResourceName, Face) -> Image,
    img: Image,
    a: seq<Face>,
    b: seq<Face>)
    ensures OverlayAll(addBitmapToFace, img, a + b)
            == OverlayAll(addBitmapToFace, OverlayAll(addBitmapToFace, img, a), b)
    decreases |b|
  {
    if b == [] {
      assert a + b == a;
    } else {
      var init := b[..|b| - 1];
      assert (a + b)[..|a + b| - 1] == a + init;
      OverlayAllAppend(addBitmapToFace, img, a, init);
    }
  }

  /** The first face is drawn onto the original picture, and the rest onto that. */
  lemma OverlayAllFirstFace<Image>(
    addBitmapToFace: (Image, ResourceName, Face) -> Image,
    img: Image,
    face: Face,
    rest: seq<Face>)
    ensures OverlayAll(addBitmapToFace, img, [face] + rest)
            == OverlayAll(
                 addBitmapToFace,
                 addBitmapToFace(img, EmojiDrawable(WhichEmoji(face)), face),
                 rest)
  {
    OverlayAllAppend(addBitmapToFace, img, [face], rest);
    assert [face][..0] == [];
  }

  /** A picture recorded as its background together with the stack of
      drawables drawn over it, each with the face it was placed on. */
  datatype Layers<Background> = Layers(background: Background, stickers: seq<(ResourceName, Face)>)

  /** A compositor that records what it draws: the background is kept and the
      emoji goes on top. */
  function Stamp<Background>(pic: Layers<Background>, drawable: ResourceName, face: Face): Layers<Background> {
    Layers(pic.background, pic.stickers + [(drawable, face)])
  }

  /** Over a recording compositor, the face loop draws exactly one emoji per
      face, in index order, each the one the classifier chose for that face,
      and leaves the background as it was. */
  lemma {:induction false} OverlayAllDrawsOnePerFace<Background>(bg: Background, faces: seq<Face>)
    ensures OverlayAll(Stamp, Layers(bg, []), faces).background == bg
    ensures |OverlayAll(Stamp, Layers(bg, []), faces).stickers| == |faces|
    ensures forall i :: 0 <= i < |faces| ==>
              OverlayAll(Stamp, Layers(bg, []), faces).stickers[i]
              == (EmojiDrawable(WhichEmoji(faces[i])), faces[i])
    decreases |faces|
  {
    if faces != [] {
      var init := faces[..|faces| - 1];
      OverlayAllDrawsOnePerFace(bg, init);
    }
  }

  /** `detectFacesAndOverlayEmoji` after detection: `faces` is what the
      detector found in `bitmap`. With no faces the picture is returned as it
      was and the no-face notice is shown; otherwise each face, in index
      order, gets the emoji the classifier chose for it drawn over the
      running result. */
  method DetectFacesAndOverlayEmoji<Image>(
    addBitmapToFace: (Image, ResourceName, Face) -> Image,
    bitmap: Image,
    faces: seq<Face>)
    returns (resultBitmap: Image, noFaceNotice: bool)
    ensures noFaceNotice <==> faces == []
    ensures faces == [] ==> resultBitmap == bitmap
    ensures resultBitmap == OverlayAll(addBitmapToFace, bitmap, faces)
  {
    resultBitmap := bitmap;
    if |faces| == 0 {
      noFaceNotice := true;
    } else {
      noFaceNotice := false;
      for i := 0 to |faces|
        invariant resultBitmap == OverlayAll(addBitmapToFace, bitmap, faces[..i])
      {
        var face := faces[i];
        assert faces[..i + 1][..i] == faces[..i];
        var bitmapEmoji := EmojiDrawable(WhichEmoji(face));
        resultBitmap := addBitmapToFace(resultBitmap, bitmapEmoji, face);
      }
      assert faces[..|faces|] == faces;
    }
  }
}
