/** The testimonials' fetch keeps one row per id
    (project/src/components/Testimonials.tsx:23-28). The query sets no
    order, so the rows come in whatever order the table returns them. */
module Testimonials {
  import opened Wrappers
  import opened Dedupe

  /** A row of the `testimonials` table (project/src/types/supabase.ts:137-145). */
  datatype Testimonial = Testimonial(
    id: int, createdAt: string, name: string, role: string, content: string, imageUrl: string)

  function TestimonialId(t: Testimonial): int { t.id }

  /** The fetched testimonials keyed by id in a Map, read back as its values. */
  function UniqueTestimonials(data: seq<Testimonial>): (unique: seq<Testimonial>)
    ensures Distinct(Ids(unique, TestimonialId))
    ensures forall k :: k in Ids(data, TestimonialId) <==> k in Ids(unique, TestimonialId)
    ensures |unique| <= |data|
    ensures forall i :: 0 <= i < |unique| ==> LastWith(data, TestimonialId, unique[i].id) == Some(unique[i])
    ensures forall i, j :: 0 <= i < j < |unique| ==>
      FirstIndex(Ids(data, TestimonialId), unique[i].id) < FirstIndex(Ids(data, TestimonialId), unique[j].id)
  {
    DedupeUniqueIds(data, TestimonialId);
    DedupeCoversIds(data, TestimonialId);
    DedupeLength(data, TestimonialId);
    DedupeKeepsLast(data, TestimonialId);
    DedupeFirstOrder(data, TestimonialId);
    DedupeById(data, TestimonialId)
  }

  /** Testimonials with distinct ids come through unchanged, and
      de-duplicating the result again changes nothing. */
  lemma UniqueTestimonialsIdempotent(data: seq<Testimonial>)
    ensures Distinct(Ids(data, TestimonialId)) ==> UniqueTestimonials(data) == data
    ensures UniqueTestimonials(UniqueTestimonials(data)) == UniqueTestimonials(data)
  {
    DistinctUnchanged(data, TestimonialId);
    DedupeIdempotent(data, TestimonialId);
  }
}
