/** The three types of question. */
module QuestionTypes {

  datatype QType = Choice | Score | Noul {
    function Index(): (i: nat)
      ensures i < 3
    {
      match this case Choice => 0 case Score => 1 case Noul => 2
    }

    function Name(): string {
      match this case Choice => "choice" case Score => "score" case Noul => "noul"
    }
  }
}
