/**
 * `LSTransactionManagerFactoryAdapter.createFreeTransactionManager`: two
 * capability checks, reader first, then construction of the manager.
 */
module LSTransactionManagerFactoryAdapter {
  import opened Wrappers
  import opened Command
  import opened LegacySam

  /** A card reader; the tag says whether it also implements `ProxyReaderApi`. */
  datatype CardReader = CardReader(name: string, isProxyReader: bool)

  /** A `LegacySam` reference: the adapter of this library, or some other implementation. */
  datatype LegacySamRef = Adapter(adapter: LegacySamAdapter) | OtherImplementation(description: string)

  /** The free transaction manager binds one reader to one SAM; it holds nothing else. */
  datatype FreeTransactionManager = FreeTransactionManager(samReader: CardReader, sam: LegacySamAdapter)

  const SamReaderMessage := "The provided 'samReader' must implement 'ProxyReaderApi'"
  const SamMessage := "The provided 'sam' must be an instance of 'LegacySamAdapter'"

  function CreateFreeTransactionManager(samReader: CardReader, sam: LegacySamRef): (r: Result<FreeTransactionManager, Failure>)
    ensures !samReader.isProxyReader ==> r == Failure(IllegalArgument(SamReaderMessage))
    ensures samReader.isProxyReader && !sam.Adapter? ==> r == Failure(IllegalArgument(SamMessage))
    ensures r.Success? <==> samReader.isProxyReader && sam.Adapter?
    ensures r.Success? ==> r.value.samReader == samReader && r.value.sam == sam.adapter
  {
    if !samReader.isProxyReader then Failure(IllegalArgument(SamReaderMessage))
    else match sam
      case OtherImplementation(_) => Failure(IllegalArgument(SamMessage))
      case Adapter(a) => Success(FreeTransactionManager(samReader, a))
  }

  /** When both arguments are wrong, the reader is the one reported. */
  lemma ReaderCheckedFirst(samReader: CardReader, sam: LegacySamRef)
    requires !samReader.isProxyReader && sam.OtherImplementation?
    ensures CreateFreeTransactionManager(samReader, sam) == Failure(IllegalArgument(SamReaderMessage))
  {
  }
}
