/** The progress store: which chapters of which subjects are marked complete. */
module ProgressStore {

  /** `data`: subject name to chapter name to "completed". Entries appear lazily, on the
      first toggle of a chapter; a pair without an entry is not completed. */
  type Progress = map<string, map<string, bool>>

  /** `data[subject]?.[chapter]` read as a truth value: a missing subject or chapter reads
      as not completed. */
  predicate Done(data: Progress, subject: string, chapter: string): (r: bool)
    ensures subject !in data ==> !r
    ensures data == map[] ==> !r
  {
    subject in data && chapter in data[subject] && data[subject][chapter]
  }

  /** The store `resetProgress` installs, and the one a failed load falls back to. */
  const Empty: Progress := map[]

  /** The store after `toggleChapter(subject, chapter)`: the subject's chapter map is
      created if missing, and the chapter's entry is set to the negation of its reading. */
  function Toggle(data: Progress, subject: string, chapter: string): (r: Progress)
    ensures Done(r, subject, chapter) == !Done(data, subject, chapter)
    ensures forall s, c :: s != subject || c != chapter ==> Done(r, s, c) == Done(data, s, c)
    ensures r.Keys == data.Keys + {subject}
    ensures forall s :: s in data && s != subject ==> r[s] == data[s]
    ensures r[subject].Keys == (if subject in data then data[subject].Keys else {}) + {chapter}
  {
    var chapters := if subject in data then data[subject] else map[];
    data[subject := chapters[chapter := !Done(data, subject, chapter)]]
  }

  /** Toggling a pair twice gives every pair its reading back. When the pair already had
      an entry the store itself is restored; otherwise the entry `false` is left behind. */
  lemma ToggleTwice(data: Progress, subject: string, chapter: string)
    ensures forall s, c :: Done(Toggle(Toggle(data, subject, chapter), subject, chapter), s, c) == Done(data, s, c)
    ensures subject in data && chapter in data[subject] ==>
              Toggle(Toggle(data, subject, chapter), subject, chapter) == data
    ensures !(subject in data && chapter in data[subject]) ==>
              Toggle(Toggle(data, subject, chapter), subject, chapter)[subject][chapter] == false
  {
    var twice := Toggle(Toggle(data, subject, chapter), subject, chapter);
    if subject in data && chapter in data[subject] {
      assert twice[subject] == data[subject];
      assert twice == data;
    }
  }
}
