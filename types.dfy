/** The records of the app: the note the store keeps, the partial note callers
    save, and the theme value and palette the theme provider uses. */
module Types {
  import opened Wrappers

  /** A stored note. Timestamps are ISO-8601 strings and are never compared. */
  datatype Note = Note(id: string, title: string, content: string, createdAt: string, updatedAt: string)

  /** `Partial<Note>`: each field is `Some` exactly when the caller supplied it. */
  datatype PartialNote = PartialNote(
    id: Option<string>, title: Option<string>, content: Option<string>,
    createdAt: Option<string>, updatedAt: Option<string>)

  /** The theme is stored and held as a plain string; only "light" and "dark" are intended. */
  type Theme = string

  /** `ThemeColors`: one colour per role. */
  datatype Palette = Palette(
    background: string, surface: string, surfaceVariant: string, text: string,
    textSecondary: string, border: string, accent: string, destructive: string)
}
