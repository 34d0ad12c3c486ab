/** Record shapes and fixed strings shared by the study companion's components. */
module Types {

  datatype Option<T> = None | Some(value: T)

  /** The settled value of a promise: a value, or a rejection carrying an
      `Error` whose `message` the components compare against known texts. */
  datatype Result<T> = Ok(value: T) | Err(message: string)

  /** One tracked assignment; `dueDate` is the `yyyy-mm-dd` text a date input yields. */
  datatype Assignment = Assignment(
    id: string,
    title: string,
    course: string,
    dueDate: string,
    description: string,
    completed: bool)

  /** One study tip; predefined tips have no category. */
  datatype StudyTip = StudyTip(id: string, text: string, category: Option<string>)

  /** Shown whenever the service has no configured API key. */
  const KEY_ERROR := "Gemini API key is not configured. Please ensure the API_KEY environment variable is set."

  /** The rejection message for any failure of the remote call. */
  const GENERAL_ERROR := "Oops! Something went wrong while talking to the AI. Please try again."

  const EXPLAINER_INSTRUCTION := "You are a friendly and knowledgeable college peer. Explain concepts in a casual, easy-to-understand way, like you're tutoring a friend. Use simple language, analogies, and break things down if complex. Keep the tone encouraging and supportive. Avoid using markdown formatting in your response, just provide plain text."

  const STUDY_TIP_PROMPT := "Give me a unique and effective study tip. Keep it concise, actionable, and suitable for a college student. Avoid markdown."

  function Predefined(id: string, text: string): StudyTip {
    StudyTip(id, text, None)
  }

  /** The tips every study-tips view starts with, in display order. */
  const PREDEFINED_STUDY_TIPS: seq<StudyTip> := [
    Predefined("1", "Create a dedicated study space. Keep it organized and free from distractions."),
    Predefined("2", "Use the Pomodoro Technique: study for 25 minutes, then take a 5-minute break."),
    Predefined("3", "Test yourself regularly. Flashcards and practice quizzes are great tools."),
    Predefined("4", "Teach what you've learned to someone else. It helps solidify your understanding."),
    Predefined("5", "Don't cram! Spaced repetition is more effective for long-term memory."),
    Predefined("6", "Stay hydrated and get enough sleep. Your brain needs it to function optimally."),
    Predefined("7", "Break down large tasks into smaller, manageable chunks."),
    Predefined("8", "Find a study group or partner. Explaining concepts to others can clarify your own understanding."),
    Predefined("9", "Minimize distractions: turn off notifications on your phone and computer while studying."),
    Predefined("10", "Take regular breaks to avoid burnout. A short walk or stretching can help.")
  ]
}
