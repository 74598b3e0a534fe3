/**
 * The todolist record returned by the todolist resource. Its declaring file is
 * not part of this model; the component only reads `id` and `title`.
 */
module TodolistsApiTypes {
  datatype Todolist = Todolist(id: string, title: string, addedDate: string, order: int)
}
