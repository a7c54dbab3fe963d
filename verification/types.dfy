/** The record a finished run shows: a segment's time range and the prompt
    text generated for it. */
module Types {

  datatype GeneratedPrompt = GeneratedPrompt(startTime: real, endTime: real, prompt: string)
}
