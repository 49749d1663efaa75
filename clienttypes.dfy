/** The client's record shapes; dates are integer timestamps. */
module ClientTypes {
  /** A note as the client holds it; `createdBy` is kept as the creator's id. */
  datatype Note = Note(id: string, title: string, content: string, tags: seq<string>,
                       createdBy: string, createdAt: int, updatedAt: int)

  /** A user currently editing a note. */
  datatype Editor = Editor(userId: string, username: string)

  /** The editors of one note, as the presence broadcast reports them. */
  datatype ActiveNote = ActiveNote(noteId: string, editors: seq<Editor>)
}
