/** Prompt text the two agents share. */
module Prompts {

  /** The line both agents' user messages open with, before the mission or prompt. */
  const PurposeIntro: string := "Your purpose: "
}
