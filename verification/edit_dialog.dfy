/** The edit dialog of a character (src/components/character/edit-character-dialog.tsx):
    a form over the name, the book title and the three initial stats, the
    clamping number inputs that fill it, and `handleSave`, which turns the
    form into the smallest patch that applies it, lowering a current stat
    that would exceed its new initial value. */
module EditCharacterDialog {
  import opened Common
  import opened GameTypes
  import opened Rules

  /** The dialog's five state variables. */
  datatype Form = Form(
    name: string,
    bookTitle: string,
    initialSkill: int,
    initialStamina: int,
    initialLuck: int)

  /** The reset effect on opening: the form shows the character as it is. */
  function OpenForm(c: Character): (f: Form)
    ensures f.name == c.name && f.bookTitle == c.bookTitle
    ensures f.initialSkill == c.initialSkill && f.initialStamina == c.initialStamina
    ensures f.initialLuck == c.initialLuck
  {
    Form(c.name, c.bookTitle, c.initialSkill, c.initialStamina, c.initialLuck)
  }

  /** `clampStat(value, min, max)`: `Math.max(min, Math.min(max, value))`. */
  function ClampStat(value: int, lo: int, hi: int): (r: int)
    ensures lo <= value <= hi ==> r == value
    ensures value < lo ==> r == lo
    ensures lo <= hi < value ==> r == hi
    ensures r >= lo
    ensures lo <= hi ==> r <= hi
  {
    Max(lo, Min(hi, value))
  }

  /** The dialog's `clampStat` and the ruleset's `clamp` agree on every
      well-formed range; on an inverted one the dialog's lower bound wins
      where the ruleset's upper bound does. */
  lemma ClampStatVersusClamp(value: int, lo: int, hi: int)
    ensures lo <= hi ==> ClampStat(value, lo, hi) == Clamp(value, lo, hi)
    ensures hi < lo ==> ClampStat(value, lo, hi) == lo && Clamp(value, lo, hi) == hi
  {
  }

  /** The skill input: `parseInt(text) || 1`, clamped to [1, 12]. */
  function SkillInput(parsed: Option<int>): (r: int)
    ensures SkillMin <= r <= SkillMax
    ensures parsed.Some? && SkillMin <= parsed.value <= SkillMax ==> r == parsed.value
    ensures parsed.None? || parsed.value <= SkillMin ==> r == SkillMin
    ensures parsed.Some? && parsed.value > SkillMax ==> r == SkillMax
  {
    ClampStat(OrIfFalsy(parsed, 1), SkillMin, SkillMax)
  }

  /** The stamina input: `parseInt(text) || 1`, clamped to [1, 24]. */
  function StaminaInput(parsed: Option<int>): (r: int)
    ensures 1 <= r <= StaminaMax
    ensures parsed.Some? && 1 <= parsed.value <= StaminaMax ==> r == parsed.value
    ensures parsed.None? || parsed.value <= 1 ==> r == 1
    ensures parsed.Some? && parsed.value > StaminaMax ==> r == StaminaMax
  {
    ClampStat(OrIfFalsy(parsed, 1), 1, StaminaMax)
  }

  /** The luck input: `parseInt(text) || 1`, clamped to [1, 12]. */
  function LuckInput(parsed: Option<int>): (r: int)
    ensures 1 <= r <= LuckMax
    ensures parsed.Some? && 1 <= parsed.value <= LuckMax ==> r == parsed.value
    ensures parsed.None? || parsed.value <= 1 ==> r == 1
    ensures parsed.Some? && parsed.value > LuckMax ==> r == LuckMax
  {
    ClampStat(OrIfFalsy(parsed, 1), 1, LuckMax)
  }

  /** The ranges the three inputs keep the form's stats in. */
  predicate FormInRange(f: Form) {
    && SkillMin <= f.initialSkill <= SkillMax
    && 1 <= f.initialStamina <= StaminaMax
    && 1 <= f.initialLuck <= LuckMax
  }

  /** Typing into any of the three inputs keeps the form in range. */
  lemma InputsKeepFormInRange(f: Form, skill: Option<int>, stamina: Option<int>, luck: Option<int>)
    ensures FormInRange(f) ==> FormInRange(f.(initialSkill := SkillInput(skill)))
    ensures FormInRange(f) ==> FormInRange(f.(initialStamina := StaminaInput(stamina)))
    ensures FormInRange(f) ==> FormInRange(f.(initialLuck := LuckInput(luck)))
    ensures FormInRange(Form(f.name, f.bookTitle, SkillInput(skill), StaminaInput(stamina), LuckInput(luck)))
  {
  }

  /** The form as the user leaves it after opening the dialog on `c`: the
      two text fields as typed, and each stat input either untouched (`None`)
      or last typed, with `parseInt` of the text as its value. */
  function FillForm(c: Character, name: string, bookTitle: string,
                    skill: Option<Option<int>>, stamina: Option<Option<int>>, luck: Option<Option<int>>)
    : (f: Form)
    ensures f.name == name && f.bookTitle == bookTitle
    ensures skill.None? ==> f.initialSkill == c.initialSkill
    ensures skill.Some? ==> f.initialSkill == SkillInput(skill.value)
    ensures stamina.None? ==> f.initialStamina == c.initialStamina
    ensures stamina.Some? ==> f.initialStamina == StaminaInput(stamina.value)
    ensures luck.None? ==> f.initialLuck == c.initialLuck
    ensures luck.Some? ==> f.initialLuck == LuckInput(luck.value)
  {
    var o := OpenForm(c);
    Form(name, bookTitle,
         if skill.Some? then SkillInput(skill.value) else o.initialSkill,
         if stamina.Some? then StaminaInput(stamina.value) else o.initialStamina,
         if luck.Some? then LuckInput(luck.value) else o.initialLuck)
  }

  /** `handleSave`: the patch holds the name and the book title only when
      they changed, and each initial stat only when it changed, together
      with its current value when that exceeds the new initial value;
      nothing is saved when the patch would be empty. */
  function HandleSave(c: Character, f: Form): (r: Option<CharacterPatch>)
    ensures r.None? <==>
      && f.name == c.name && f.bookTitle == c.bookTitle
      && f.initialSkill == c.initialSkill && f.initialStamina == c.initialStamina
      && f.initialLuck == c.initialLuck
    ensures r.Some? ==>
      var p := r.value;
      && p == NoChange.(name := p.name, bookTitle := p.bookTitle,
                        initialSkill := p.initialSkill, currentSkill := p.currentSkill,
                        initialStamina := p.initialStamina, currentStamina := p.currentStamina,
                        initialLuck := p.initialLuck, currentLuck := p.currentLuck)
      && (p.name.Some? <==> f.name != c.name) && (p.name.Some? ==> p.name.value == f.name)
      && (p.bookTitle.Some? <==> f.bookTitle != c.bookTitle)
      && (p.bookTitle.Some? ==> p.bookTitle.value == f.bookTitle)
      && (p.initialSkill.Some? <==> f.initialSkill != c.initialSkill)
      && (p.initialSkill.Some? ==> p.initialSkill.value == f.initialSkill)
      && (p.currentSkill.Some? <==> f.initialSkill != c.initialSkill && c.currentSkill > f.initialSkill)
      && (p.currentSkill.Some? ==> p.currentSkill.value == f.initialSkill)
      && (p.initialStamina.Some? <==> f.initialStamina != c.initialStamina)
      && (p.initialStamina.Some? ==> p.initialStamina.value == f.initialStamina)
      && (p.currentStamina.Some? <==> f.initialStamina != c.initialStamina && c.currentStamina > f.initialStamina)
      && (p.currentStamina.Some? ==> p.currentStamina.value == f.initialStamina)
      && (p.initialLuck.Some? <==> f.initialLuck != c.initialLuck)
      && (p.initialLuck.Some? ==> p.initialLuck.value == f.initialLuck)
      && (p.currentLuck.Some? <==> f.initialLuck != c.initialLuck && c.currentLuck > f.initialLuck)
      && (p.currentLuck.Some? ==> p.currentLuck.value == f.initialLuck)
  {
    var changedSkill := f.initialSkill != c.initialSkill;
    var changedStamina := f.initialStamina != c.initialStamina;
    var changedLuck := f.initialLuck != c.initialLuck;
    var p := NoChange.(
      name := if f.name != c.name then Some(f.name) else None,
      bookTitle := if f.bookTitle != c.bookTitle then Some(f.bookTitle) else None,
      initialSkill := if changedSkill then Some(f.initialSkill) else None,
      currentSkill := if changedSkill && c.currentSkill > f.initialSkill then Some(f.initialSkill) else None,
      initialStamina := if changedStamina then Some(f.initialStamina) else None,
      currentStamina := if changedStamina && c.currentStamina > f.initialStamina then Some(f.initialStamina) else None,
      initialLuck := if changedLuck then Some(f.initialLuck) else None,
      currentLuck := if changedLuck && c.currentLuck > f.initialLuck then Some(f.initialLuck) else None);
    if p == NoChange then None else Some(p)
  }

  /** The character after saving: the patch spread over it, or the character
      itself when nothing was saved. */
  function Saved(c: Character, f: Form): Character {
    match HandleSave(c, f)
    case None => c
    case Some(p) => Merge(c, p)
  }

  /** What the dialog means to do, stated independently of the patch: take
      the form's name, title and initial stats, and bring each current stat
      down to its new initial value when it is above it. */
  function ApplyForm(c: Character, f: Form): (d: Character)
    ensures d.id == c.id && d.updatedAt == c.updatedAt && d.inventory == c.inventory
  {
    c.(name := f.name, bookTitle := f.bookTitle,
       initialSkill := f.initialSkill, currentSkill := Min(c.currentSkill, f.initialSkill),
       initialStamina := f.initialStamina, currentStamina := Min(c.currentStamina, f.initialStamina),
       initialLuck := f.initialLuck, currentLuck := Min(c.currentLuck, f.initialLuck))
  }

  /** On a character within its limits, saving any form is exactly applying
      it: every other field is kept and every current stat becomes the
      smaller of its old value and the new initial value. */
  lemma SaveAppliesForm(c: Character, f: Form)
    requires WithinLimits(c)
    ensures Saved(c, f) == ApplyForm(c, f)
  {
  }

  /** Without the limits, an unchanged initial stat leaves an out-of-range
      current value where it is: `handleSave` clamps only on a change. */
  lemma SaveClampsOnlyOnChange(c: Character, f: Form)
    requires f.initialSkill == c.initialSkill
    ensures Saved(c, f).currentSkill == c.currentSkill
    ensures Saved(c, f).initialSkill == c.initialSkill
  {
  }

  /** Saving the form the dialog opened with saves nothing. */
  lemma UnchangedFormSavesNothing(c: Character)
    ensures HandleSave(c, OpenForm(c)) == None
  {
  }

  /** Raising an initial stat never touches its current value. */
  lemma RaisingKeepsCurrent(c: Character, f: Form)
    requires f.initialStamina >= c.initialStamina >= c.currentStamina
    ensures HandleSave(c, f).None? || HandleSave(c, f).value.currentStamina.None?
    ensures Saved(c, f).currentStamina == c.currentStamina
  {
  }

  /** Saving a form with non-negative initial stats keeps the stat invariant,
      so every form the inputs can produce does. */
  lemma SaveKeepsLimits(c: Character, f: Form)
    requires WithinLimits(c)
    requires f.initialSkill >= 0 && f.initialStamina >= 0 && f.initialLuck >= 0
    ensures WithinLimits(Saved(c, f))
  {
    SaveAppliesForm(c, f);
  }

  /** Every form the dialog can be left with has non-negative initial
      stats, so saving it keeps a character within its limits. */
  lemma FilledFormKeepsLimits(c: Character, name: string, bookTitle: string,
                              skill: Option<Option<int>>, stamina: Option<Option<int>>, luck: Option<Option<int>>)
    requires WithinLimits(c)
    ensures WithinLimits(Saved(c, FillForm(c, name, bookTitle, skill, stamina, luck)))
  {
    SaveKeepsLimits(c, FillForm(c, name, bookTitle, skill, stamina, luck));
  }
}
