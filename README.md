# Emojify-Me: expression classifier and emoji overlay

This project models the `Emojifier` utility of the Emojify-Me Android app. The utility takes a photo and the faces a face detector found in it. For each face it reads three probabilities: smiling, left eye open and right eye open. It classifies each face as one of eight emoji. It picks the bundled drawable for that emoji and draws it over the face. It returns the composited photo.

All of it is in `Emojifier.dfy`, module `Emojifier`:

- `Emoji` has the eight expressions and `Face` is one detector record.
- `WhichEmoji` is the classifier. It uses two thresholds of 0.15. Smiling is a strict `>` test. Each eye-closed test is a strict `<` test on the eye-open probability.
- `Mouth`, `Eyes`, `ComposeEmoji`, `MouthFor` and `EyesFor` give an independent table of the eight categories. Each category is one mouth combined with one eye state. The classifier is proved to agree with this table.
- `EmojiDrawable` models the `switch` from emoji to drawable. It is an exhaustive match over the eight values. The source's `case` labels also cover all eight enum constants, so its `default` arm cannot run for any value `whichEmoji` returns. `whichEmoji` never returns null, because every branch assigns a constant. A null operand would make the Java `switch` throw a `NullPointerException`, not run `default`. Dafny's `Emoji` type has no null value, and Dafny checks that the match covers every case.
- `EmojiForDrawable` looks up which emoji a drawable name belongs to. It is the inverse that `EmojiDrawable`'s contract is stated against.
- `OverlayAll` is the face loop written as a left fold. `DetectFacesAndOverlayEmoji` is the loop itself, and it is proved equal to the fold.
- The image is a type parameter. `addBitmapToFace` is a function parameter. The detector's output is the given sequence `faces`, in the detector's index order.
- `Layers` and `Stamp` are a compositor that records each drawable it draws. With them, the fold is shown to draw exactly one emoji per face, in index order.

Probabilities are modelled as `real`, because the source only compares them with constants.

## Model

| member | source | states |
|---|---|---|
| Emojifier.IsSmiling | app/src/main/java/com/example/anu/emojifyme/utils/Emojifier.java:142 | a face counts as smiling exactly when its smiling probability is strictly above the threshold `SmilingProbThreshold` = 0.15 (line 30); the boundary value itself is not smiling (see ThresholdIsExclusive) |
| Emojifier.IsLeftEyeClosed | app/src/main/java/com/example/anu/emojifyme/utils/Emojifier.java:143 | the left eye counts as closed exactly when its eye-open probability is strictly below `EyeOpenProbThreshold` = 0.15 (line 31) |
| Emojifier.IsRightEyeClosed | app/src/main/java/com/example/anu/emojifyme/utils/Emojifier.java:144 | the right eye counts as closed exactly when its eye-open probability is strictly below `EyeOpenProbThreshold` = 0.15 (line 31) |
| Emojifier.WhichEmoji | app/src/main/java/com/example/anu/emojifyme/utils/Emojifier.java:134-176 | the result is in the smiling family iff the smiling probability is > 0.15 (otherwise the frown family); it is a left wink (smiling or frowning) iff left eye-open < 0.15 and right >= 0.15; a right wink iff the mirror; a closed-eye emoji iff both are < 0.15; plain smile/frown iff both are >= 0.15 |
| Emojifier.EmojiIsMouthAndEyes | app/src/main/java/com/example/anu/emojifyme/utils/Emojifier.java:182-191 | the eight `Emoji` values are exactly the eight combinations of a mouth (smiling, frowning) and an eye state (both open, left closed only, right closed only, both closed), each once |
| Emojifier.WhichEmojiMatchesTable | app/src/main/java/com/example/anu/emojifyme/utils/Emojifier.java:142-172 | the nested if/else picks the emoji whose mouth is the smiling test's outcome and whose eye state is the two eye tests' outcome; so the `else if (isLeftEyeClosed)` branch is taken exactly when both eyes are closed |
| Emojifier.EveryEmojiIsReachable | app/src/main/java/com/example/anu/emojifyme/utils/Emojifier.java:152-172 | every one of the eight emoji is returned for some face (no branch is dead) |
| Emojifier.ThresholdIsExclusive | app/src/main/java/com/example/anu/emojifyme/utils/Emojifier.java:142-144 | a smiling probability of exactly 0.15 is not smiling; an eye-open probability of exactly 0.15 is an open eye |
| Emojifier.SmilingLeftWinkExample | app/src/main/java/com/example/anu/emojifyme/utils/Emojifier.java:153-154 | smiling 0.9, left eye open 0.05, right eye open 0.9 gives LEFT_WINK |
| Emojifier.EmojiDrawable | app/src/main/java/com/example/anu/emojifyme/utils/Emojifier.java:83-115 | each of the eight emoji is mapped to its drawable: smile, frown, leftwink, rightwink, leftwinkfrown, rightwinkfrown, closed_smile, closed_frown; the contract says that the drawable's name identifies the emoji (looking the name up gives that emoji back) |
| Emojifier.EmojiDrawableInjective | app/src/main/java/com/example/anu/emojifyme/utils/Emojifier.java:83-115 | each emoji has its own drawable: two emoji share a drawable only if they are equal |
| Emojifier.OverlayAll | app/src/main/java/com/example/anu/emojifyme/utils/Emojifier.java:67-123 | the loop written as a left fold: with no faces it is the input picture; otherwise it applies `addBitmapToFace` to the running picture once for each face, in index order, each time with the drawable of that face's `WhichEmoji` result (its properties are the lemmas below) |
| Emojifier.OverlayAllAppend | app/src/main/java/com/example/anu/emojifyme/utils/Emojifier.java:75-123 | running the face loop over `a + b` is running it over `b` starting from the picture produced for `a` |
| Emojifier.OverlayAllFirstFace | app/src/main/java/com/example/anu/emojifyme/utils/Emojifier.java:67-123 | the first face's emoji is drawn onto the original picture, and the remaining faces are drawn onto that result |
| Emojifier.OverlayAllDrawsOnePerFace | app/src/main/java/com/example/anu/emojifyme/utils/Emojifier.java:75-122 | when the compositor records its calls, the loop keeps the background and adds one emoji per face, in index order; entry `i` is the drawable of the emoji chosen for face `i`, placed on face `i` |
| Emojifier.DetectFacesAndOverlayEmoji | app/src/main/java/com/example/anu/emojifyme/utils/Emojifier.java:40-128 | the no-face notice is shown iff there are no faces, and then the input picture is returned unchanged; otherwise the result is the fold of one overlay per face in index order with the classifier's emoji |

## Left out

- The inside of `addBitmapToFace` (app/src/main/java/com/example/anu/emojifyme/utils/Emojifier.java:201-231) is not modelled. It scales the emoji by the `0.9f` factor, with float-to-int casts and the factor applied twice to the height. It places the emoji with mixed float and integer division, and draws through the Android `Canvas`/`Bitmap` API. Here it is an arbitrary function parameter.
- Face detection is not modelled: the Google Play Services `FaceDetector`/`Frame` calls, building the detector and releasing it. Its output is a given `seq<Face>`.
- Side effects are not modelled: the `Toast` messages, `Timber` logging and `BitmapFactory.decodeResource`. The no-face `Toast` appears only as the `noFaceNotice` flag. A drawable is modelled by its resource name.
- `ui/MainActivity.java` is not part of this model. It holds permissions, camera intents, temporary files and view handling.
- IEEE-754 behaviour is not modelled: NaN, infinities and float rounding. The probabilities are Java `float` values that are widened to `double` before the comparison with the `double` constant `0.15`. The float nearest 0.15 is slightly above the double 0.15, so the source counts a smiling probability of `0.15f` as smiling. The boundary lemma is about the exact real 0.15.
- The `default` arm (lines 116-118) has no counterpart: it cannot run, because the eight `case` labels cover the enum and `whichEmoji` never returns null. The `NullPointerException` that a null operand would raise is not modelled, because `Emoji` values are never null.
