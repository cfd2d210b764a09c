/**
 * The documents of the application: users, chats with their AI participants,
 * and chat messages. A `Date` is held as a whole number of milliseconds since
 * the epoch; an optional property is an `Option`.
 */
module Types {
  import opened Wrappers

  /** Milliseconds since the epoch, the value `Date.getTime()` returns. */
  type Millis = int

  datatype AIProvider = OpenAI | Anthropic | Google | Ollama

  datatype UserPreferences = UserPreferences(
    notifications: Option<bool>,
    defaultAIProvider: Option<AIProvider>)

  datatype APIKeys = APIKeys(
    openai: Option<string>,
    anthropic: Option<string>,
    google: Option<string>,
    ollamaEndpoint: Option<string>)

  datatype User = User(
    id: string,
    name: string,
    createdAt: Millis,
    chats: seq<string>,          // ids of the chats the user belongs to
    preferences: UserPreferences,
    apiKeys: Option<APIKeys>)

  datatype AIChatParticipant = AIChatParticipant(
    id: string,
    name: string,
    provider: AIProvider,
    model: string,
    systemPrompt: Option<string>)

  /** An AI participant before it has been given an id (`Omit<AIChatParticipant, 'id'>`). */
  datatype AIParticipantDraft = AIParticipantDraft(
    name: string,
    provider: AIProvider,
    model: string,
    systemPrompt: Option<string>)

  datatype Chat = Chat(
    id: string,
    joinCode: string,
    isPublic: bool,
    name: string,
    createdAt: Millis,
    updatedAt: Millis,
    participants: seq<string>,   // user ids
    aiParticipants: seq<AIChatParticipant>,
    messages: seq<string>)       // message ids

  datatype ChatMessage = ChatMessage(
    id: string,
    content: string,
    createdAt: Millis,
    updatedAt: Millis,
    senderId: string,            // a user id or an AI participant id
    senderName: string,
    isAI: bool)

  /** `{ ...draft, id }`: the draft's fields under the given id. */
  function WithId(d: AIParticipantDraft, id: string): AIChatParticipant {
    AIChatParticipant(id, d.name, d.provider, d.model, d.systemPrompt)
  }
}
