/**
 * The prompt descriptor, reduced to what the line buffer asks of it:
 * its printed width (`getLength()`), whether it masks the input
 * (`isMasking()`) and the mask character (`getMask()`, where 0 means
 * that nothing at all is shown).
 */
module Prompts {

  datatype Prompt = Prompt(length: nat, masking: bool, mask: char) {

    /** Masking with the zero mask: the input is hidden without trace. */
    predicate HidesAll() {
      masking && mask == '\0'
    }
  }

  /** `new Prompt("")`: no decoration, no masking. */
  const EmptyPrompt: Prompt := Prompt(0, false, '\0')

  /** `new Prompt("> ")`, shown while a logical line continues. */
  const ContinuationPrompt: Prompt := Prompt(2, false, '\0')
}
