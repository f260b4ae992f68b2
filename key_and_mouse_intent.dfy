/**
 * A key or mouse binding's decoded intent (augs/misc/key_and_mouse_intent.cpp).
 * The intent enumeration itself is declared in a header that is not part of this model;
 * only the values the core tests are named, the rest are `Other(code)`.
 */
module KeyAndMouseIntent {
  datatype IntentType =
    | MoveCrosshair
    | CrosshairPrimaryAction
    | CrosshairSecondaryAction
    | Other(code: nat)
    | Count   // the "no intent" sentinel

  datatype Vec2i = Vec2i(x: int, y: int)

  datatype Intent = Intent(intent: IntentType, mouseRel: Vec2i, isPressed: bool)

  predicate IsSet(k: Intent) {
    k.intent != Count
  }

  predicate UsesMouseMotion(k: Intent) {
    k.intent == MoveCrosshair
    || k.intent == CrosshairPrimaryAction
    || k.intent == CrosshairSecondaryAction
  }

  /** `operator==`: the tuple (intent, mouse_rel, is_pressed) compared as a whole. */
  predicate Equal(a: Intent, b: Intent) {
    (a.intent, a.mouseRel, a.isPressed) == (b.intent, b.mouseRel, b.isPressed)
  }

  predicate NotEqual(a: Intent, b: Intent) {
    !Equal(a, b)
  }

  /** An intent is set exactly when it is not the COUNT sentinel. */
  lemma IsSetIffNotCount(k: Intent)
    ensures IsSet(k) <==> !k.intent.Count?
  {
  }

  /** Exactly the three crosshair intents use mouse motion, and each of them is a set intent. */
  lemma UsesMouseMotionExactly(k: Intent)
    ensures UsesMouseMotion(k) <==> k.intent in {MoveCrosshair, CrosshairPrimaryAction, CrosshairSecondaryAction}
    ensures UsesMouseMotion(k) ==> IsSet(k)
  {
  }

  /** Comparing the three-field tuple is exactly value equality of the intent. */
  lemma EqualIsValueEquality(a: Intent, b: Intent)
    ensures Equal(a, b) <==> a == b
  {
  }

  /** `operator!=` is the negation of `operator==`. */
  lemma NotEqualIsNegation(a: Intent, b: Intent)
    ensures NotEqual(a, b) <==> a != b
    ensures NotEqual(a, b) != Equal(a, b)
  {
  }
}
