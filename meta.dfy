/**
 * The slice of Java reflection the recursive load listeners use: a class's
 * declared fields with their annotations, and its direct superclass's.
 */
module Meta {
  import opened Wrappers

  /**
   * The annotations the listeners look for. The one-to-one listener finds
   * ids by jakarta.persistence.Id, the one-to-many listener by
   * org.springframework.data.annotation.Id.
   */
  datatype Annotation = JakartaId | SpringDataId | OneToOneRecursive | OneToManyRecursive | OtherAnnotation(name: string)

  datatype FieldDecl = FieldDecl(name: string, annotations: set<Annotation>)

  /** A runtime class: its own declared fields and those of its direct superclass. */
  datatype ClassDecl = ClassDecl(name: string, fields: seq<FieldDecl>, superFields: seq<FieldDecl>)

  /** `field.isAnnotationPresent(a)`. */
  predicate HasAnnotation(f: FieldDecl, a: Annotation) {
    a in f.annotations
  }

  /** tryFindIdField: a declared field carrying the id annotation (the first, for a sequential stream). */
  function TryFindIdField(fields: seq<FieldDecl>, id: Annotation): (r: Option<FieldDecl>)
    ensures r.Some? <==> exists f :: f in fields && HasAnnotation(f, id)
    ensures r.Some? ==> r.value in fields && HasAnnotation(r.value, id)
  {
    if fields == [] then None
    else if HasAnnotation(fields[0], id) then Some(fields[0])
    else TryFindIdField(fields[1..], id)
  }

  /**
   * retrieveIdField: the id field of the class itself, else of its direct
   * superclass only; None is the NoSuchElementException of `Optional.get`.
   */
  function RetrieveIdField(cls: ClassDecl, id: Annotation): (r: Option<FieldDecl>)
    ensures r.Some? <==> (exists f :: f in cls.fields && HasAnnotation(f, id))
                         || (exists f :: f in cls.superFields && HasAnnotation(f, id))
    ensures (exists f :: f in cls.fields && HasAnnotation(f, id)) ==> r.Some? && r.value in cls.fields
    ensures r.Some? ==> HasAnnotation(r.value, id)
  {
    var own := TryFindIdField(cls.fields, id);
    if own.Some? then own else TryFindIdField(cls.superFields, id)
  }
}
