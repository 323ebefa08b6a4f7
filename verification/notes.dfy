/**
 The note record shared by the list, the editor, the page and the API handler.
 Timestamps are abstract instants; every place that shows one goes through a
 formatting function the model leaves abstract.
 */
module Notes {
  datatype Note = Note(id: nat, title: string, content: string, createdAt: int, updatedAt: int)
}
